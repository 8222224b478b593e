// Worker diagnostics: control characters are escaped, the escape can be undone,
// and the persisted failure reason is cut to a byte budget on a character boundary.
module Diagnostics {
  import opened Text
  import opened Utf8

  const MAX_REASON_BYTES: nat := 4096

  /** `char::is_control`: the Unicode category Cc. */
  predicate IsControl(c: char) {
    c as int < 0x20 || 0x7F <= c as int <= 0x9F
  }

  /** Lower-case hexadecimal without padding, as `{:x}` prints it. */
  function Hex(n: nat): (s: string)
    ensures |s| > 0
  {
    if n < 16 then [HEX[n]] else Hex(n / 16) + [HEX[n % 16]]
  }

  /** `{:02x}`: padded to two digits, longer when the number needs it. */
  function Hex02(n: nat): string {
    if |Hex(n)| < 2 then "0" + Hex(n) else Hex(n)
  }

  function EscapeTailChar(c: char): string {
    if c == '\t' then "\\t"
    else if c == '\n' then "\\n"
    else if c == '\r' then "\\r"
    else if c == '\\' then "\\\\"
    else if IsControl(c) then "\\x" + Hex02(c as int)
    else [c]
  }

  function EscapeTailEach(s: string): string {
    if s == [] then [] else EscapeTailChar(s[0]) + EscapeTailEach(s[1..])
  }

  function EscapedTail(s: string): string {
    if s == [] then "-" else EscapeTailEach(s)
  }

  lemma {:induction false} EscapeTailSnoc(s: string, c: char)
    ensures EscapeTailEach(s + [c]) == EscapeTailEach(s) + EscapeTailChar(c)
  {
    if s == [] {
      assert [c][1..] == [];
    } else {
      assert (s + [c])[1..] == s[1..] + [c];
      EscapeTailSnoc(s[1..], c);
    }
  }

  method EscapeDiagnosticTail(value: string) returns (escaped: string)
    ensures escaped == EscapedTail(value)
  {
    if value == [] {
      return "-";
    }
    escaped := "";
    assert value[..0] == [] && EscapeTailEach([]) == [];
    for i := 0 to |value|
      invariant escaped == EscapeTailEach(value[..i])
    {
      hide EscapeTailEach;
      EscapeTailSnoc(value[..i], value[i]);
      assert value[..i] + [value[i]] == value[..i + 1];
      escaped := PushEscaped(escaped, value[i]);
    }
    assert value[..|value|] == value;
  }

  /** The arm of one character. */
  method PushEscaped(output: string, character: char) returns (escaped: string)
    ensures escaped == output + EscapeTailChar(character)
  {
    match character {
      case '\t' => escaped := output + "\\t";
      case '\n' => escaped := output + "\\n";
      case '\r' => escaped := output + "\\r";
      case '\\' => escaped := output + "\\\\";
      case other =>
        if IsControl(other) {
          escaped := output + "\\x" + Hex02(other as int);
        } else {
          escaped := output + [other];
        }
    }
  }

  // ----- Undoing the escape -----

  function HexValue(c: char): Option<nat> {
    if '0' <= c <= '9' then Some(c as int - '0' as int)
    else if 'a' <= c <= 'f' then Some(c as int - 'a' as int + 10)
    else None
  }

  /** The first complete token of an escaped text: the character it stands for
      and its width. */
  function Token(s: string): Option<(char, nat)>
    ensures Token(s).Some? ==> 1 <= Token(s).value.1 <= |s|
  {
    if s == [] then None
    else if s[0] != '\\' then Some((s[0], 1))
    else if |s| < 2 then None
    else if s[1] == 't' then Some(('\t', 2))
    else if s[1] == 'n' then Some(('\n', 2))
    else if s[1] == 'r' then Some(('\r', 2))
    else if s[1] == '\\' then Some(('\\', 2))
    else if s[1] != 'x' || |s| < 4 then None
    else
      match (HexValue(s[2]), HexValue(s[3]))
      case (Some(high), Some(low)) => Some(((high * 16 + low) as char, 4))
      case _ => None
  }

  /** Decodes the complete tokens and stops at the first incomplete one. */
  function DecodeTail(s: string): string
    decreases |s|
  {
    match Token(s)
    case None => []
    case Some((c, width)) => [c] + DecodeTail(s[width..])
  }

  lemma HexDigitValue(d: nat)
    requires d < 16
    ensures HexValue(HEX[d]) == Some(d)
  {
  }

  /** Every control character left for the hexadecimal form takes exactly two digits. */
  lemma ControlTakesTwoDigits(c: char)
    requires IsControl(c)
    ensures |Hex02(c as int)| == 2
    ensures HexValue(Hex02(c as int)[0]) == Some(c as int / 16)
    ensures HexValue(Hex02(c as int)[1]) == Some(c as int % 16)
  {
    var n := c as int;
    HexDigitValue(n % 16);
    if n < 16 {
      assert Hex02(n) == "0" + [HEX[n]];
      HexDigitValue(0);
    } else {
      HexDigitValue(n / 16);
      assert Hex(n / 16) == [HEX[n / 16]];
    }
  }

  lemma TokenOfEscape(c: char, rest: string)
    ensures Token(EscapeTailChar(c) + rest) == Some((c, |EscapeTailChar(c)|))
    ensures (EscapeTailChar(c) + rest)[|EscapeTailChar(c)|..] == rest
  {
    if IsControl(c) {
      ControlTakesTwoDigits(c);
    }
  }

  /** A proper prefix of one escape is not a complete token. */
  lemma TokenCutShort(c: char, cut: nat)
    requires cut < |EscapeTailChar(c)|
    ensures Token(EscapeTailChar(c)[..cut]) == None
  {
    if IsControl(c) {
      ControlTakesTwoDigits(c);
    }
  }

  /** However an escaped text is cut, the complete tokens that are left decode to
      a prefix of the original; uncut, they decode to the original. */
  lemma {:induction false} CutDecodesToPrefix(s: string, cut: nat)
    requires cut <= |EscapeTailEach(s)|
    ensures DecodeTail(EscapeTailEach(s)[..cut]) <= s
    ensures cut == |EscapeTailEach(s)| ==> DecodeTail(EscapeTailEach(s)[..cut]) == s
  {
    hide Token, EscapeTailChar;
    if s != [] {
      var head, rest := EscapeTailChar(s[0]), EscapeTailEach(s[1..]);
      if cut < |head| {
        assert EscapeTailEach(s)[..cut] == head[..cut];
        TokenCutShort(s[0], cut);
      } else {
        var cutRest := rest[..cut - |head|];
        assert EscapeTailEach(s)[..cut] == head + cutRest;
        TokenOfEscape(s[0], cutRest);
        CutDecodesToPrefix(s[1..], cut - |head|);
        assert s == [s[0]] + s[1..];
      }
    }
  }

  lemma {:induction false} EscapeTailEachHasNoControl(s: string)
    ensures forall i :: 0 <= i < |EscapeTailEach(s)| ==> !IsControl(EscapeTailEach(s)[i])
  {
    if s != [] {
      EscapeTailEachHasNoControl(s[1..]);
      if IsControl(s[0]) {
        ControlTakesTwoDigits(s[0]);
        var h := Hex02(s[0] as int);
        assert HexValue(h[0]).Some? && HexValue(h[1]).Some?;
        assert forall i :: 0 <= i < |h| ==> !IsControl(h[i]);
      }
      assert forall i :: 0 <= i < |EscapeTailChar(s[0])| ==> !IsControl(EscapeTailChar(s[0])[i]);
    }
  }

  lemma EscapedTailHasNoControl(s: string)
    ensures forall i :: 0 <= i < |EscapedTail(s)| ==> !IsControl(EscapedTail(s)[i])
  {
    EscapeTailEachHasNoControl(s);
  }

  lemma EscapedTailDecodes(s: string)
    requires s != []
    ensures DecodeTail(EscapedTail(s)) == s
  {
    var e := EscapeTailEach(s);
    CutDecodesToPrefix(s, |e|);
    assert e[..|e|] == e;
  }

  /** The escape is injective but for one pair: the empty text prints as "-". */
  lemma EscapedTailCollision(a: string, b: string)
    ensures EscapedTail(a) == EscapedTail(b) <==> a == b || (a == "" && b == "-") || (a == "-" && b == "")
  {
    assert EscapeTailEach("-") == "-" by {
      assert "-"[1..] == "";
    }
    if a != [] {
      EscapedTailDecodes(a);
    }
    if b != [] {
      EscapedTailDecodes(b);
    }
    EscapedTailDecodes("-");
  }

  // ----- The persisted failure reason -----

  /** The longest prefix whose encoding fits: what the byte-wise cut is meant to keep. */
  function LongestFit(s: string, max: nat): (kept: string)
    ensures kept <= s && |Encode(kept)| <= max
  {
    if |Encode(s)| <= max then s else LongestFit(s[..|s| - 1], max)
  }

  lemma EncodedPrefixes(s: string, i: nat, j: nat)
    requires i < j <= |s|
    ensures |Encode(s[..i])| < |Encode(s[..j])|
  {
    EncodeConcat(s[..i], s[i..j]);
    assert s[..i] + s[i..j] == s[..j];
  }

  lemma {:induction false} LongestFitIsLongest(s: string, max: nat, k: nat)
    requires k <= |s| && |Encode(s[..k])| <= max
    requires k < |s| ==> |Encode(s[..k + 1])| > max
    ensures LongestFit(s, max) == s[..k]
    decreases |s|
  {
    if k == |s| {
      assert s[..k] == s;
    } else {
      var t := s[..|s| - 1];
      assert s[..|s|] == s;
      if k + 1 < |s| {
        EncodedPrefixes(s, k + 1, |s|);
        assert t[..k + 1] == s[..k + 1];
      }
      assert t[..k] == s[..k];
      LongestFitIsLongest(t, max, k);
    }
  }

  function FailureReason(prefix: string, message: string): string {
    var detail := Trim(message);
    if detail == [] then prefix else prefix + ": " + LongestFit(EscapedTail(detail), MAX_REASON_BYTES)
  }

  /** The byte-wise cut: start at the budget and walk back to a character
      boundary. The result is the encoding of the reason. */
  method WorkerFailureReason(prefix: string, message: string) returns (reason: seq<Byte>)
    ensures reason == Encode(FailureReason(prefix, message))
  {
    var detail := Trim(message);
    if detail == [] {
      return Encode(prefix);
    }
    var text := EscapeDiagnosticTail(detail);
    var escaped := Encode(text);
    var end := if |escaped| < MAX_REASON_BYTES then |escaped| else MAX_REASON_BYTES;
    ghost var start := end;
    while !CharBoundary(escaped, end)
      invariant 0 <= end <= start
      invariant forall i :: end < i <= start ==> !CharBoundary(escaped, i)
      decreases end
    {
      end := end - 1;
    }
    CutIsLongestFit(text, start, end);
    EncodeConcat(prefix + ": ", LongestFit(text, MAX_REASON_BYTES));
    reason := Encode(prefix + ": ") + escaped[..end];
  }

  lemma CutIsLongestFit(s: string, start: nat, end: nat)
    requires start == if |Encode(s)| < MAX_REASON_BYTES then |Encode(s)| else MAX_REASON_BYTES
    requires end <= start && CharBoundary(Encode(s), end)
    requires forall i :: end < i <= start ==> !CharBoundary(Encode(s), i)
    ensures Encode(s)[..end] == Encode(LongestFit(s, MAX_REASON_BYTES))
  {
    var k := BoundaryCutsCharacters(s, end);
    if k < |s| {
      var next := |Encode(s[..k + 1])|;
      EncodedPrefixes(s, k, k + 1);
      PrefixEndsOnBoundary(s, k + 1);
      assert next > start;
      assert |Encode(s)| >= next;
    }
    LongestFitIsLongest(s, MAX_REASON_BYTES, k);
  }

  lemma PrefixEndsOnBoundary(s: string, k: nat)
    requires k <= |s|
    ensures |Encode(s[..k])| <= |Encode(s)| && CharBoundary(Encode(s), |Encode(s[..k])|)
  {
    EncodeConcat(s[..k], s[k..]);
    assert s[..k] + s[k..] == s;
    if k < |s| {
      LeadAndTail(s[k]);
      assert Encode(s)[|Encode(s[..k])|] == EncodeChar(s[k])[0];
    }
  }

  /** What may be relied on about a stored reason: its size, how little the cut
      drops, that it stays on one line, and that what is kept reads back as a
      prefix of the trimmed message. */
  lemma FailureReasonPromises(prefix: string, message: string)
    ensures |Encode(FailureReason(prefix, message))| <= |Encode(prefix)| + 2 + 4096
    ensures (forall i :: 0 <= i < |prefix| ==> !IsControl(prefix[i])) ==>
            forall i :: 0 <= i < |FailureReason(prefix, message)| ==> !IsControl(FailureReason(prefix, message)[i])
    ensures Trim(message) != [] ==>
            var kept := LongestFit(EscapedTail(Trim(message)), 4096);
            && FailureReason(prefix, message) == prefix + ": " + kept
            && DecodeTail(kept) <= Trim(message)
            && (kept == EscapedTail(Trim(message)) ==> DecodeTail(kept) == Trim(message))
            && (kept != EscapedTail(Trim(message)) ==> |Encode(kept)| >= 4096 - 3)
  {
    var detail := Trim(message);
    if detail != [] {
      var e := EscapedTail(detail);
      var kept := LongestFit(e, MAX_REASON_BYTES);
      assert kept == e[..|kept|];
      CutDecodesToPrefix(detail, |kept|);
      assert e[..|e|] == e;
      EscapedTailHasNoControl(detail);
      EncodeConcat(prefix + ": ", kept);
      EncodeConcat(prefix, ": ");
      assert |Encode(": ")| == 2 by {
        assert ": "[1..] == " " && " "[1..] == "";
      }
      if kept != e {
        DropsAtMostThreeBytes(e);
      }
      assert FailureReason(prefix, message) == prefix + ": " + kept;
    }
  }

  lemma DropsAtMostThreeBytes(s: string)
    requires LongestFit(s, MAX_REASON_BYTES) != s
    ensures |Encode(LongestFit(s, MAX_REASON_BYTES))| >= MAX_REASON_BYTES - 3
  {
    var back := BoundaryWithinThree(s, MAX_REASON_BYTES);
    var k := BoundaryCutsCharacters(s, MAX_REASON_BYTES - back);
    LongestFitDominates(s, MAX_REASON_BYTES, k);
  }

  lemma {:induction false} LongestFitDominates(s: string, max: nat, k: nat)
    requires k <= |s| && |Encode(s[..k])| <= max
    ensures |Encode(s[..k])| <= |Encode(LongestFit(s, max))|
    decreases |s|
  {
    assert s[..|s|] == s;
    if |Encode(s)| <= max {
      if k < |s| {
        EncodedPrefixes(s, k, |s|);
      }
    } else {
      var t := s[..|s| - 1];
      assert k < |s| && t[..k] == s[..k];
      LongestFitDominates(t, max, k);
    }
  }
}
