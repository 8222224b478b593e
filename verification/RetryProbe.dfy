// The retry probe: a decimal counter in a file, read in arbitrary chunks and
// rewritten by every attempt, whose first attempt is made to fail.
module RetryProbe {
  import opened Text
  import opened Utf8
  import opened Control

  const USIZE_MAX: nat := 0xFFFF_FFFF_FFFF_FFFF
  const MAX_BYTES: nat := 4096

  /** The attempts a file stands for: its trimmed decimal value when it is short
      enough, valid UTF-8 and parses; zero for anything else, and for no file. */
  function AttemptsIn(file: Option<seq<Byte>>): nat {
    if file.None? || |file.value| > MAX_BYTES then 0 else ParsedAttempts(file.value)
  }

  /** The value of the bytes that were read. */
  function ParsedAttempts(bytes: seq<Byte>): nat {
    match Decode(bytes)
    case None => 0
    case Some(text) =>
      match ParseUnsigned(Trim(text), USIZE_MAX)
      case None => 0
      case Some(n) => n
  }

  datatype ReadOutcome = Value(attempts: nat) | ReadCancelled

  function Clamp(n: nat, low: nat, high: nat): nat
    requires low <= high
  {
    if n < low then low else if n > high then high else n
  }

  /** The size of a read of a 4096-byte buffer when `left` bytes are left: the file
      system gives at least one byte, or none at the end. */
  function ReadSize(left: nat, proposed: nat): nat {
    if left == 0 then 0 else Clamp(proposed, 1, if left < MAX_BYTES then left else MAX_BYTES)
  }

  /** The reads of an undisturbed call on a file of `n` bytes, `done` of which have
      been read: up to the empty read, or up to the one that makes it too long. */
  function Reads(n: nat, done: nat, sizes: nat -> nat, count: nat): nat
    requires done <= n
    decreases n - done
  {
    var read := ReadSize(n - done, sizes(count));
    if read == 0 || done + read > MAX_BYTES then 1 else 1 + Reads(n, done + read, sizes, count + 1)
  }

  lemma ReadsStep(n: nat, done: nat, sizes: nat -> nat, count: nat)
    requires done <= n
    ensures var read := ReadSize(n - done, sizes(count));
            && read <= n - done && (read == 0 <==> done == n)
            && Reads(n, done, sizes, count) ==
               if read == 0 || done + read > MAX_BYTES then 1 else 1 + Reads(n, done + read, sizes, count + 1)
  {
  }

  /** The polls of an undisturbed call: one before the file is opened, one after it,
      and one on either side of every read. */
  function ReadPolls(file: Option<seq<Byte>>, sizes: nat -> nat): (polls: nat)
    ensures polls >= 1
  {
    match file
    case None => 1
    case Some(bytes) => 2 + 2 * Reads(|bytes|, 0, sizes, 0)
  }

  /** Reading through a 4096-byte buffer, however the file system cuts the file
      into reads: `sizes` proposes the size of each read. The value does not depend
      on the cut; it is returned exactly if every poll of the call passes. */
  method ReadAttempts(file: Option<seq<Byte>>, sizes: nat -> nat, c: Cancellation) returns (r: ReadOutcome)
    modifies c
    ensures r == if Passes(old(c.polls), ReadPolls(file, sizes), c.cancelAt)
                 then Value(AttemptsIn(file)) else ReadCancelled
    ensures r.Value? ==> c.polls == old(c.polls) + ReadPolls(file, sizes)
    ensures r.ReadCancelled? ==> c.polls > c.cancelAt
  {
    hide ParsedAttempts, Reads, ReadSize;
    var ok := c.Check();
    if !ok {
      return ReadCancelled;
    }
    if file.None? {
      return Value(AttemptsIn(file));
    }
    var content := file.value;
    ok := c.Check();
    if !ok {
      return ReadCancelled;
    }
    var bytes: seq<Byte> := [];
    var count := 0;
    while true
      invariant |bytes| <= MAX_BYTES && |bytes| <= |content| && bytes == content[..|bytes|]
      invariant c.polls == old(c.polls) + 2 + 2 * count && c.polls <= c.cancelAt
      invariant Reads(|content|, 0, sizes, 0) == count + Reads(|content|, |bytes|, sizes, count)
      decreases |content| - |bytes|
    {
      ReadsStep(|content|, |bytes|, sizes, count);
      ok := c.Check();
      if !ok {
        return ReadCancelled;
      }
      var read := ReadSize(|content| - |bytes|, sizes(count));
      ok := c.Check();
      if !ok {
        return ReadCancelled;
      }
      count := count + 1;
      if read == 0 {
        break;
      }
      if |bytes| + read > MAX_BYTES {
        return Value(0);
      }
      bytes := content[..|bytes| + read];
    }
    assert bytes == content;
    r := Value(ParsedAttempts(bytes));
  }

  // ----- The counter round-trips -----

  function Pow10(k: nat): nat { if k == 0 then 1 else 10 * Pow10(k - 1) }

  lemma {:induction false} DecLength(n: nat, k: nat)
    requires k >= 1 && n < Pow10(k)
    ensures |Dec(n)| <= k
  {
    if n >= 10 {
      assert Pow10(1) == 10 * Pow10(0);
      assert k > 1;
      DecLength(n / 10, k - 1);
    }
  }

  lemma TrimDigits(s: string)
    requires AllDigits(s) && s != []
    ensures Trim(s) == s
  {
    assert IsDigit(s[0]) && IsDigit(s[|s| - 1]);
  }

  lemma UsizeFitsTwentyDigits()
    ensures USIZE_MAX < Pow10(20)
  {
    assert Pow10(5) == 100000;
    assert Pow10(10) == 10000000000;
    assert Pow10(15) == 1000000000000000;
    assert Pow10(20) == 100000000000000000000;
  }

  /** Reading back what was written gives the number, for every number. */
  lemma CounterRoundTrip(n: nat)
    requires n <= USIZE_MAX
    ensures AttemptsIn(Some(Encode(Dec(n)))) == n
  {
    UsizeFitsTwentyDigits();
    DecLength(n, 20);
    EncodeAscii(Dec(n));
    DecodeEncode(Dec(n));
    TrimDigits(Dec(n));
    ParseDec(n, USIZE_MAX);
  }

  /** The file spells `n`: at most 4096 bytes of UTF-8 holding, between blank ends, an
      optional plus sign and the digits of a number that fits the source's width. */
  predicate Spells(bytes: seq<Byte>, n: nat, pre: string, number: string, post: string) {
    && |bytes| <= 4096 && bytes == Encode(pre + number + post)
    && Blank(pre) && Blank(post)
    && number != []
    && var digits := if number[0] == '+' then number[1..] else number;
       digits != [] && AllDigits(digits) && DigitsValue(digits) == n && n <= USIZE_MAX
  }

  /** What any file counts as: a number other than zero if and only if it spells that
      number, and zero for every other file. */
  lemma AttemptsInIff(bytes: seq<Byte>, n: nat)
    requires n > 0
    ensures AttemptsIn(Some(bytes)) == n <==> exists pre, number, post :: Spells(bytes, n, pre, number, post)
  {
    if AttemptsIn(Some(bytes)) == n {
      EncodeDecode(bytes);
      var text := Decode(bytes).value;
      var pre, post := TrimTakesBlankEnds(text);
      assert Spells(bytes, n, pre, Trim(text), post);
    }
    forall pre, number, post | Spells(bytes, n, pre, number, post) ensures AttemptsIn(Some(bytes)) == n {
      SpelledIsRead(bytes, n, pre, number, post);
    }
  }

  lemma SpelledIsRead(bytes: seq<Byte>, n: nat, pre: string, number: string, post: string)
    requires Spells(bytes, n, pre, number, post)
    ensures AttemptsIn(Some(bytes)) == n
  {
    hide Encode, Decode, Trim, DigitsValue;
    DecodeEncode(pre + number + post);
    var digits := if number[0] == '+' then number[1..] else number;
    assert number[|number| - 1] == digits[|digits| - 1];
    TrimOfPadded(pre, number, post);
  }

  // ----- The probe over many attempts -----

  /** One attempt's surroundings: the polls of the access steps, whether one step up
      to the write is refused, how the file is cut into reads, and the write. */
  datatype Plan = Plan(cancelAt: nat, accessPolls: nat, refused: bool, sizes: nat -> nat, write: WritePlan)

  datatype Outcome = Busy | Passed | Stopped

  function PollsBeforeWrite(file: Option<seq<Byte>>, p: Plan): nat {
    p.accessPolls + ReadPolls(file, p.sizes)
  }

  predicate Reaches(file: Option<seq<Byte>>, p: Plan) {
    Passes(0, PollsBeforeWrite(file, p), p.cancelAt) && !p.refused
  }

  /** The attempt replaces the counter file. */
  predicate Counts(file: Option<seq<Byte>>, p: Plan) {
    Reaches(file, p) && Lands(PollsBeforeWrite(file, p), p.write, p.cancelAt)
  }

  /** The attempt runs to its answer: past the rename and the three polls behind it. */
  predicate Answers(file: Option<seq<Byte>>, p: Plan) {
    Counts(file, p) && Passes(PollsBeforeWrite(file, p), p.write.PollsBeforeRename() + 3, p.cancelAt)
  }

  datatype AttemptResult = AttemptResult(file: Option<seq<Byte>>, outcome: Outcome)

  /** The next counter in the source's integer width. */
  function NextCount(n: nat): nat { if n >= USIZE_MAX then 0 else n + 1 }

  function Attempt(file: Option<seq<Byte>>, p: Plan): AttemptResult {
    var n := AttemptsIn(file);
    AttemptResult(if Counts(file, p) then Some(Encode(Dec(NextCount(n)))) else file,
                  if !Answers(file, p) then Stopped else if n == 0 then Busy else Passed)
  }

  method FailFirstAttempt(p: Plan, state: StoreFile<seq<Byte>>) returns (outcome: Outcome)
    modifies state
    ensures Attempt(old(state.content), p) == AttemptResult(state.content, outcome)
  {
    hide AttemptsIn, ReadPolls, Encode, Dec;
    var c := new Cancellation(p.cancelAt);
    var ok := c.CheckTimes(p.accessPolls);
    if !ok {
      return Stopped;
    }
    var read := ReadAttempts(state.content, p.sizes, c);
    if read.ReadCancelled? || p.refused {
      return Stopped;
    }
    var attempts := read.attempts;
    var written := state.WriteChecked(Encode(Dec(NextCount(attempts))), p.write, c);
    if !written.Written? {
      return Stopped;
    }
    ok := c.CheckTimes(2);
    if !ok {
      return Stopped;
    }
    outcome := if attempts == 0 then Busy else Passed;
  }

  function AfterAll(file: Option<seq<Byte>>, plans: seq<Plan>): Option<seq<Byte>>
    decreases |plans|
  {
    if plans == [] then file else AfterAll(Attempt(file, plans[0]).file, plans[1..])
  }

  /** How many attempts replaced the file. */
  function Counted(file: Option<seq<Byte>>, plans: seq<Plan>): nat
    decreases |plans|
  {
    if plans == [] then 0
    else (if Counts(file, plans[0]) then 1 else 0) + Counted(Attempt(file, plans[0]).file, plans[1..])
  }

  /** An attempt whose write lands counts one up, and from the largest number to zero. */
  lemma AttemptCounts(file: Option<seq<Byte>>, p: Plan)
    ensures AttemptsIn(Attempt(file, p).file) ==
            if !Counts(file, p) then AttemptsIn(file)
            else if AttemptsIn(file) < 0xFFFF_FFFF_FFFF_FFFF then AttemptsIn(file) + 1 else 0
  {
    AttemptsFit(file);
    hide AttemptsIn, Counts;
    if Counts(file, p) {
      CounterRoundTrip(NextCount(AttemptsIn(file)));
    }
  }

  lemma AttemptsFit(file: Option<seq<Byte>>)
    ensures AttemptsIn(file) <= USIZE_MAX
  {
    hide Decode, Trim, DigitsValue;
  }

  /** Which polls an attempt needs to replace the file, and to answer. */
  lemma AttemptNeeds(file: Option<seq<Byte>>, p: Plan)
    ensures var before := p.accessPolls + ReadPolls(file, p.sizes);
            && (Counts(file, p) <==> before + p.write.extraPolls + 1 <= p.cancelAt && !p.refused && !p.write.ioFails)
            && (Answers(file, p) <==> before + p.write.extraPolls + 4 <= p.cancelAt && !p.refused && !p.write.ioFails)
  {
    hide ReadPolls;
  }

  lemma {:induction false} CounterCounts(file: Option<seq<Byte>>, plans: seq<Plan>)
    requires AttemptsIn(file) + |plans| <= USIZE_MAX
    ensures AttemptsIn(AfterAll(file, plans)) == AttemptsIn(file) + Counted(file, plans)
    ensures Counted(file, plans) <= |plans|
    decreases |plans|
  {
    if plans != [] {
      AttemptCounts(file, plans[0]);
      hide Attempt, Counts, AttemptsIn;
      CounterCounts(Attempt(file, plans[0]).file, plans[1..]);
    }
  }

  /** From a missing file the stored value is the number of attempts whose write
      landed, and an attempt that runs to its answer fails exactly when no earlier
      attempt's write landed: an attempt cancelled after its rename has used up the
      failure without reporting it. */
  lemma {:induction false} FirstAnswerFails(plans: seq<Plan>, p: Plan)
    requires |plans| < USIZE_MAX
    ensures AttemptsIn(AfterAll(None, plans)) == Counted(None, plans)
    ensures Answers(AfterAll(None, plans), p) ==>
              Attempt(AfterAll(None, plans), p).outcome == if Counted(None, plans) == 0 then Busy else Passed
  {
    CounterCounts(None, plans);
    hide AfterAll, Counted, Answers;
  }

  predicate AllAnswer(file: Option<seq<Byte>>, plans: seq<Plan>)
    decreases |plans|
  {
    plans != [] ==> Answers(file, plans[0]) && AllAnswer(Attempt(file, plans[0]).file, plans[1..])
  }

  /** The usual case: undisturbed attempts fail once and then always pass, however
      the file is cut into reads. */
  lemma {:induction false} UndisturbedAttempts(plans: seq<Plan>, p: Plan)
    requires |plans| < USIZE_MAX && AllAnswer(None, plans) && Answers(AfterAll(None, plans), p)
    ensures Attempt(AfterAll(None, plans), p).outcome == if plans == [] then Busy else Passed
  {
    FirstAnswerFails(plans, p);
    if plans != [] {
      assert Counts(None, plans[0]);
    }
  }
}
