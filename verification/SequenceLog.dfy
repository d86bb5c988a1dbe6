/**
 How a node's answer to a broadcast becomes an expected sequence number: the log line the node prints, the two
 regular expressions that search it, the decimal parse, and the classification of a broadcast.
 */
module SequenceLog {
  import opened Words

  // ----- decimal numbers

  predicate IsDigit(c: char) { '0' <= c <= '9' }

  predicate AllDigits(s: string) { forall k :: 0 <= k < |s| ==> IsDigit(s[k]) }

  function DigitValue(c: char): nat
    requires IsDigit(c)
  {
    c as int - '0' as int
  }

  /** `%d` of a non-negative number. */
  function Decimal(n: nat): string {
    if n < 10 then [('0' as int + n) as char] else Decimal(n / 10) + [('0' as int + n % 10) as char]
  }

  function Value(s: string): nat
    requires AllDigits(s)
  {
    if s == [] then 0 else 10 * Value(s[..|s| - 1]) + DigitValue(s[|s| - 1])
  }

  /** `strconv.ParseUint(s, 10, 64)`: an error is None. */
  function ParseUint(s: string): Option<uint64> {
    if s == [] || !AllDigits(s) || Value(s) >= TWO_64 then None else Some(Value(s))
  }

  lemma {:induction false} DecimalRoundTrip(n: nat)
    ensures Decimal(n) != [] && AllDigits(Decimal(n)) && Value(Decimal(n)) == n
  {
    if n >= 10 {
      DecimalRoundTrip(n / 10);
      assert Decimal(n)[..|Decimal(n)| - 1] == Decimal(n / 10);
    } else {
      assert Decimal(n)[..0] == [];
    }
  }

  /** Extra digits behind a number change it, unless both are zero. */
  lemma {:induction false} ValueAppend(a: string, b: string)
    requires AllDigits(a) && AllDigits(b) && b != []
    ensures Value(a + b) == Value(a) <==> Value(a) == 0 && Value(b) == 0
    ensures Value(a + b) >= 10 * Value(a)
  {
    var ab, b' := a + b, b[..|b| - 1];
    assert ab[..|ab| - 1] == a + b';
    if b' == [] {
      assert a + b' == a;
    } else {
      ValueAppend(a, b');
    }
  }

  // ----- regular expressions

  /** `before \d+ between \d+`, with one of the two numbers captured. */
  datatype Pattern = Pattern(before: string, between: string, captureFirst: bool)

  const SEQUENCE_PATTERN := Pattern("account sequence mismatch, expected ", ", got ", true)
  const NONCE_PATTERN := Pattern("invalid nonce; got ", ", expected ", false)

  predicate ValidPattern(p: Pattern) { p.between != [] && !IsDigit(p.between[0]) }

  /** The text `w` stands in `log` at position `at`. */
  predicate TextAt(log: string, at: nat, w: string) {
    at + |w| <= |log| && forall k :: 0 <= k < |w| ==> log[at + k] == w[k]
  }

  predicate DigitsAt(log: string, at: nat, n: nat) {
    at + n <= |log| && forall k :: at <= k < at + n ==> IsDigit(log[k])
  }

  /** The meaning of the expression: it matches from `at` with numbers of `m` and `n` digits. */
  predicate MatchAt(p: Pattern, log: string, at: nat, m: nat, n: nat) {
    && m >= 1 && n >= 1
    && TextAt(log, at, p.before)
    && DigitsAt(log, at + |p.before|, m)
    && TextAt(log, at + |p.before| + m, p.between)
    && DigitsAt(log, at + |p.before| + m + |p.between|, n)
  }

  /** What a Go regexp returns: the leftmost match, then the longest first number, then the longest second one. */
  ghost predicate IsFound(p: Pattern, log: string, at: nat, m: nat, n: nat) {
    && MatchAt(p, log, at, m, n)
    && forall at': nat, m': nat, n': nat :: MatchAt(p, log, at', m', n') ==>
         at < at' || (at == at' && (m' < m || (m' == m && n' <= n)))
  }

  datatype Found = NotFound | Found(at: nat, m: nat, n: nat)

  /** Number of consecutive digits from position `i`. */
  function DigitRun(log: string, i: nat): (n: nat)
    decreases |log| - i
    ensures i <= |log| ==> DigitsAt(log, i, n)
  {
    if i >= |log| || !IsDigit(log[i]) then 0 else 1 + DigitRun(log, i + 1)
  }

  function TryAt(p: Pattern, log: string, at: nat): Found {
    var i := at + |p.before|;
    var m := DigitRun(log, i);
    var n := DigitRun(log, i + m + |p.between|);
    if TextAt(log, at, p.before) && m >= 1 && TextAt(log, i + m, p.between) && n >= 1 then Found(at, m, n) else NotFound
  }

  function Search(p: Pattern, log: string, at: nat): Found
    decreases |log| - at
  {
    if TryAt(p, log, at).Found? then TryAt(p, log, at)
    else if at >= |log| then NotFound
    else Search(p, log, at + 1)
  }

  /** The captured digits of a match. */
  function Captured(p: Pattern, log: string, at: nat, m: nat, n: nat): string
    requires MatchAt(p, log, at, m, n)
  {
    var i := at + |p.before|;
    var j := i + m + |p.between|;
    if p.captureFirst then log[i..i + m] else log[j..j + n]
  }

  /** `FindStringSubmatch(log)[1]`; None when there is no match. */
  function Submatch(p: Pattern, log: string): Option<string> {
    var f := Search(p, log, 0);
    if f.NotFound? then None else
      SearchSound(p, log, 0);
      Some(Captured(p, log, f.at, f.m, f.n))
  }

  lemma {:induction false} SearchSound(p: Pattern, log: string, at: nat)
    ensures var f := Search(p, log, at); f.Found? ==> at <= f.at && MatchAt(p, log, f.at, f.m, f.n)
    decreases |log| - at
  {
    if TryAt(p, log, at).NotFound? && at < |log| {
      SearchSound(p, log, at + 1);
    }
  }

  /** A run of digits goes on behind any digits it starts with. */
  lemma {:induction false} DigitRunConcat(log: string, i: nat, n: nat)
    requires DigitsAt(log, i, n)
    ensures DigitRun(log, i) == n + DigitRun(log, i + n)
    decreases n
  {
    if n > 0 {
      DigitRunConcat(log, i + 1, n - 1);
    }
  }

  /** Any match at a position is found there, with the same first number and at least as long a second one. */
  lemma TryAtComplete(p: Pattern, log: string, at: nat, m: nat, n: nat)
    requires ValidPattern(p) && MatchAt(p, log, at, m, n)
    ensures var f := TryAt(p, log, at); f.Found? && f.at == at && f.m == m && n <= f.n
  {
    var i := at + |p.before|;
    assert DigitRun(log, i) == m by {
      DigitRunConcat(log, i, m);
      assert log[i + m + 0] == p.between[0];
    }
    DigitRunConcat(log, i + m + |p.between|, n);
  }

  lemma {:induction false} SearchLeftmost(p: Pattern, log: string, from: nat, at: nat, m: nat, n: nat)
    requires ValidPattern(p) && from <= at && MatchAt(p, log, at, m, n)
    ensures var f := Search(p, log, from);
            f.Found? && (f.at < at || (f.at == at && f.m == m && n <= f.n))
    decreases |log| - from
  {
    if from == at {
      TryAtComplete(p, log, at, m, n);
    } else if TryAt(p, log, from).NotFound? {
      SearchLeftmost(p, log, from + 1, at, m, n);
    }
  }

  /** The search computes the meaning of the expression: it fails only when nothing matches. */
  lemma SearchCorrect(p: Pattern, log: string)
    requires ValidPattern(p)
    ensures match Search(p, log, 0)
            case NotFound => forall at: nat, m: nat, n: nat :: !MatchAt(p, log, at, m, n)
            case Found(at, m, n) => IsFound(p, log, at, m, n)
  {
    SearchSound(p, log, 0);
    forall at: nat, m: nat, n: nat | MatchAt(p, log, at, m, n)
      ensures var f := Search(p, log, 0); f.Found? && (f.at < at || (f.at == at && f.m == m && n <= f.n))
    {
      SearchLeftmost(p, log, 0, at, m, n);
    }
  }

  lemma Middle(a: string, w: string, c: string, log: string)
    requires log == a + w + c
    ensures TextAt(log, |a|, w)
  {
  }

  /** The five parts follow each other in the log. */
  ghost predicate IsLine(log: string, a: string, x: string, b: string, y: string, tail: string) {
    && TextAt(log, 0, a) && TextAt(log, |a|, x) && TextAt(log, |a| + |x|, b) && TextAt(log, |a| + |x| + |b|, y)
    && log[|a| + |x| + |b| + |y|..] == tail
  }

  lemma LineParts(a: string, x: string, b: string, y: string, tail: string, log: string)
    requires log == a + x + b + y + tail
    ensures IsLine(log, a, x, b, y, tail)
  {
    assert log == [] + a + (x + b + y + tail);
    Middle([], a, x + b + y + tail, log);
    assert log == a + x + (b + y + tail);
    Middle(a, x, b + y + tail, log);
    assert log == (a + x) + b + (y + tail);
    Middle(a + x, b, y + tail, log);
    Middle(a + x + b, y, tail, log);
  }

  /** A line that starts the log is where the search stops. */
  lemma SearchLine(p: Pattern, x: string, y: string, log: string)
    requires ValidPattern(p) && x != [] && AllDigits(x) && y != [] && AllDigits(y)
    requires TextAt(log, 0, p.before) && TextAt(log, |p.before|, x) && TextAt(log, |p.before| + |x|, p.between)
    requires TextAt(log, |p.before| + |x| + |p.between|, y)
    ensures Search(p, log, 0) == Found(0, |x|, DigitRun(log, |p.before| + |x| + |p.between|))
  {
    DigitsOfText(log, |p.before|, x);
    DigitsOfText(log, |p.before| + |x| + |p.between|, y);
    TryAtComplete(p, log, 0, |x|, |y|);
  }

  lemma DigitsOfText(log: string, at: nat, w: string)
    requires TextAt(log, at, w) && AllDigits(w)
    ensures DigitsAt(log, at, |w|)
  {
    forall k | at <= k < at + |w| ensures IsDigit(log[k]) {
      assert log[at + (k - at)] == w[k - at];
    }
  }

  lemma SliceOfText(log: string, at: nat, w: string)
    requires TextAt(log, at, w)
    ensures log[at..at + |w|] == w
  {
  }

  // ----- the node's answer

  /** Codespace and codes of `ErrWrongSequence` and `ErrInvalidSequence` in the Cosmos SDK. */
  const SDK_CODESPACE := "sdk"
  const WRONG_SEQUENCE := 32
  const INVALID_SEQUENCE := 3

  datatype CheckResult = NoError | SequenceError(expected: uint64, message: string) | OtherError(message: string)

  function CheckPattern(p: Pattern, log: string): CheckResult {
    match Submatch(p, log)
    case None => OtherError(log)
    case Some(digits) =>
      match ParseUint(digits)
      case None => OtherError(log)
      case Some(n) => SequenceError(n, log)
  }

  function CheckSequence(codespace: string, code: nat, log: string): CheckResult {
    if codespace == SDK_CODESPACE && code == WRONG_SEQUENCE then CheckPattern(SEQUENCE_PATTERN, log) else NoError
  }

  function CheckNonce(codespace: string, code: nat, log: string): CheckResult {
    if codespace == SDK_CODESPACE && code == INVALID_SEQUENCE then CheckPattern(NONCE_PATTERN, log) else NoError
  }

  /** What the node prints. */
  function MismatchLine(expected: nat, got: nat): string {
    "account sequence mismatch, expected " + Decimal(expected) + ", got " + Decimal(got)
  }

  function NonceLine(expected: nat, got: nat): string {
    "invalid nonce; got " + Decimal(got) + ", expected " + Decimal(expected)
  }

  /** The number reported is the captured one of the leftmost match, if it is below 2^64. */
  lemma CheckMeaning(p: Pattern, log: string, at: nat, m: nat, n: nat)
    requires ValidPattern(p) && IsFound(p, log, at, m, n)
    ensures var digits := Captured(p, log, at, m, n);
            && AllDigits(digits)
            && CheckPattern(p, log)
               == if Value(digits) < 0x1_0000_0000_0000_0000 then SequenceError(Value(digits), log) else OtherError(log)
  {
    FoundBySearch(p, log, at, m, n);
    CapturedDigits(p, log, at, m, n);
    NumberReported(p, log, Captured(p, log, at, m, n));
  }

  lemma NumberReported(p: Pattern, log: string, digits: string)
    requires Submatch(p, log) == Some(digits) && digits != [] && AllDigits(digits)
    ensures CheckPattern(p, log)
            == if Value(digits) < 0x1_0000_0000_0000_0000 then SequenceError(Value(digits), log) else OtherError(log)
  {
  }

  lemma FoundBySearch(p: Pattern, log: string, at: nat, m: nat, n: nat)
    requires ValidPattern(p) && IsFound(p, log, at, m, n)
    ensures Submatch(p, log) == Some(Captured(p, log, at, m, n))
  {
    assert Search(p, log, 0) == Found(at, m, n) by {
      SearchLeftmost(p, log, 0, at, m, n);
      SearchSound(p, log, 0);
    }
  }

  lemma CapturedDigits(p: Pattern, log: string, at: nat, m: nat, n: nat)
    requires MatchAt(p, log, at, m, n)
    ensures Captured(p, log, at, m, n) != [] && AllDigits(Captured(p, log, at, m, n))
  {
  }

  /** Without a match there is no sequence to report. */
  lemma CheckUnmatched(p: Pattern, log: string)
    requires ValidPattern(p) && forall at: nat, m: nat, n: nat :: !MatchAt(p, log, at, m, n)
    ensures CheckPattern(p, log) == OtherError(log)
  {
    SearchSound(p, log, 0);
  }

  lemma CaptureFirst(p: Pattern, log: string, n: nat, w: string)
    requires p.captureFirst && Search(p, log, 0) == Found(0, |w|, n) && TextAt(log, |p.before|, w)
    ensures Submatch(p, log) == Some(w)
  {
    SliceOfText(log, |p.before|, w);
  }

  lemma CaptureSecond(p: Pattern, log: string, m: nat, w: string)
    requires !p.captureFirst && Search(p, log, 0) == Found(0, m, |w|)
    requires var j := |p.before| + m + |p.between|; j + |w| <= |log| && log[j..j + |w|] == w
    ensures Submatch(p, log) == Some(w)
  {
  }

  lemma FirstNumber(p: Pattern, x: string, y: string, tail: string, log: string)
    requires ValidPattern(p) && p.captureFirst && x != [] && AllDigits(x) && y != [] && AllDigits(y)
    requires IsLine(log, p.before, x, p.between, y, tail)
    ensures Submatch(p, log) == Some(x)
  {
    SearchLine(p, x, y, log);
    CaptureFirst(p, log, DigitRun(log, |p.before| + |x| + |p.between|), x);
  }

  lemma SecondNumber(p: Pattern, x: string, y: string, tail: string, log: string)
    requires ValidPattern(p) && !p.captureFirst && x != [] && AllDigits(x) && y != [] && AllDigits(y)
    requires IsLine(log, p.before, x, p.between, y, tail)
    ensures Submatch(p, log) == Some(y + tail[..DigitRun(tail, 0)])
  {
    RunInLine(log, |p.before| + |x| + |p.between|, y, tail);
    SecondRun(p, x, y, y + tail[..DigitRun(tail, 0)], log);
  }

  lemma SecondRun(p: Pattern, x: string, y: string, w: string, log: string)
    requires ValidPattern(p) && !p.captureFirst && x != [] && AllDigits(x) && y != [] && AllDigits(y)
    requires TextAt(log, 0, p.before) && TextAt(log, |p.before|, x) && TextAt(log, |p.before| + |x|, p.between)
    requires var j := |p.before| + |x| + |p.between|;
             TextAt(log, j, y) && DigitRun(log, j) == |w| && j + |w| <= |log| && log[j..j + |w|] == w
    ensures Submatch(p, log) == Some(w)
  {
    SearchLine(p, x, y, log);
    CaptureSecond(p, log, |x|, w);
  }

  lemma RunInLine(log: string, j: nat, y: string, tail: string)
    requires TextAt(log, j, y) && AllDigits(y) && log[j + |y|..] == tail
    ensures var n := |y| + DigitRun(tail, 0);
            DigitRun(log, j) == n && j + n <= |log| && log[j..j + n] == y + tail[..DigitRun(tail, 0)]
  {
    DigitsOfText(log, j, y);
    DigitRunConcat(log, j, |y|);
    DigitRunDrop(log, j + |y|);
    SliceOfText(log, j, y);
    JoinSlices(log, j, |y|, DigitRun(tail, 0));
  }

  lemma JoinSlices(log: string, j: nat, k: nat, n: nat)
    requires j + k + n <= |log|
    ensures log[j..j + k + n] == log[j..j + k] + log[j + k..][..n]
  {
  }

  lemma SequenceDigits(expected: nat, got: nat, tail: string)
    ensures Submatch(SEQUENCE_PATTERN, MismatchLine(expected, got) + tail) == Some(Decimal(expected))
  {
    DecimalRoundTrip(expected);
    DecimalRoundTrip(got);
    var p, log := SEQUENCE_PATTERN, MismatchLine(expected, got) + tail;
    LineParts(p.before, Decimal(expected), p.between, Decimal(got), tail, log);
    FirstNumber(p, Decimal(expected), Decimal(got), tail, log);
  }

  /** Printing an expected sequence and reading it back is exact, whatever follows; 2^64 and more are refused. */
  lemma SequenceRoundTrip(expected: nat, got: nat, tail: string)
    ensures var log := MismatchLine(expected, got) + tail;
            CheckSequence("sdk", 32, log)
            == if expected < TWO_64 then SequenceError(expected, log) else OtherError(log)
  {
    DecimalRoundTrip(expected);
    SequenceDigits(expected, got, tail);
  }

  /** From the nonce line the search captures the expected number and whatever digits follow it. */
  lemma NonceDigits(expected: nat, got: nat, tail: string)
    ensures Submatch(NONCE_PATTERN, NonceLine(expected, got) + tail)
            == Some(Decimal(expected) + tail[..DigitRun(tail, 0)])
  {
    DecimalRoundTrip(expected);
    DecimalRoundTrip(got);
    var p, log := NONCE_PATTERN, NonceLine(expected, got) + tail;
    LineParts(p.before, Decimal(got), p.between, Decimal(expected), tail, log);
    SecondNumber(p, Decimal(got), Decimal(expected), tail, log);
  }

  /**
   The nonce line ends with the number, so what follows matters: the value read is the one printed exactly when
   no digit follows, or when zero is followed by zeros only.
   */
  lemma NonceRoundTrip(expected: nat, got: nat, tail: string)
    requires expected < TWO_64
    ensures var log := NonceLine(expected, got) + tail;
            var digits := tail[..DigitRun(tail, 0)];
            CheckNonce("sdk", 3, log) == SequenceError(expected, log)
            <==> digits == [] || (expected == 0 && Value(digits) == 0)
  {
    DecimalRoundTrip(expected);
    NonceDigits(expected, got, tail);
    ReadsBack(Decimal(expected), tail[..DigitRun(tail, 0)]);
  }

  /** A number and the digits that follow it parse to the number exactly when nothing follows or all is zero. */
  lemma ReadsBack(y: string, digits: string)
    requires AllDigits(y) && y != [] && AllDigits(digits) && Value(y) < TWO_64
    ensures ParseUint(y + digits) == Some(Value(y)) <==> digits == [] || (Value(y) == 0 && Value(digits) == 0)
  {
    if digits == [] {
      assert y + digits == y;
    } else {
      ValueAppend(y, digits);
    }
  }

  lemma {:induction false} DigitRunDrop(log: string, i: nat)
    requires i <= |log|
    ensures DigitRun(log, i) == DigitRun(log[i..], 0)
    decreases |log| - i
  {
    if i < |log| && IsDigit(log[i]) {
      DigitRunDrop(log, i + 1);
      DigitRunDrop(log[i..], 1);
      assert log[i..][1..] == log[i + 1..];
    }
  }
}
