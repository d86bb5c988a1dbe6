/**
 Broadcasting the transactions of one replayed block, with optional gas fuzzing, a fallback to the original bytes, and
 the counters of the block summary.
 */
module ReplayBatch {
  import opened Words

  datatype Result = Accepted(hash: string) | Failed(message: string)

  /** A transaction with everything that will happen to it: `fuzzed` is None when fuzzing reports an error. */
  datatype Script = Script(original: Bytes, fuzzed: Option<Bytes>, first: Result, fallback: Result)

  datatype Counters = Counters(success: nat, timeout: nat, sequence: nat, outOfGas: nat, other: nat,
                               fuzzed: nat, fallback: nat)

  datatype Category = Timeout | Sequence | OutOfGas | Other

  predicate StartsAt(s: string, i: nat, w: string) { i + |w| <= |s| && s[i..i + |w|] == w }

  predicate Contains(s: string, w: string) { exists i :: 0 <= i <= |s| && StartsAt(s, i, w) }

  /** A text contains a word exactly when the word stands between two pieces of it. */
  lemma ContainsMeaning(s: string, w: string)
    ensures Contains(s, w) <==> exists a: string, b: string :: s == a + w + b
  {
    if Contains(s, w) {
      var i :| 0 <= i <= |s| && StartsAt(s, i, w);
      assert s == s[..i] + w + s[i + |w|..];
    }
    if a: string, b: string :| s == a + w + b {
      assert StartsAt(s, |a|, w);
    }
  }

  // ----- what the summary means

  /** Fuzzing is on and has produced other bytes. */
  predicate Differs(on: bool, tx: Script) { on && tx.fuzzed.Some? && tx.fuzzed.value != tx.original }

  /** The original is sent after a fuzzed transaction has failed for want of gas. */
  predicate FallsBack(on: bool, tx: Script) {
    tx.first.Failed? && Differs(on, tx) && Contains(tx.first.message, "out of gas")
  }

  predicate Landed(r: Result) { r.Accepted? && r.hash != "" }

  /** An entry in the error statistics. */
  datatype Note = NoHash | Text(text: string)

  /** The errors recorded for one transaction: that of its first broadcast, and then once more or its fallback's. */
  function Notes(on: bool, tx: Script): seq<Note> {
    match tx.first
    case Accepted(hash) => if hash == "" then [NoHash] else []
    case Failed(message) =>
      if !FallsBack(on, tx) then [Text(message), Text(message)]
      else if Landed(tx.fallback) then [Text(message)]
      else if tx.fallback.Failed? then [Text(message), Text(tx.fallback.message)]
      else [Text(message), Text("fallback transaction returned empty hash")]
  }

  /** The kinds of error, in the order they are tried. */
  predicate IsIn(n: Note, c: Category) {
    match c
    case Timeout => n.Text? && Contains(n.text, "tx timeout height")
    case Sequence =>
      n.Text? && !Contains(n.text, "tx timeout height") && Contains(n.text, "account sequence mismatch")
    case OutOfGas =>
      && n.Text? && !Contains(n.text, "tx timeout height") && !Contains(n.text, "account sequence mismatch")
      && Contains(n.text, "out of gas")
    case Other =>
      n.Text? ==>
        && !Contains(n.text, "tx timeout height") && !Contains(n.text, "account sequence mismatch")
        && !Contains(n.text, "out of gas")
  }

  function CountIn(notes: seq<Note>, c: Category): nat {
    if notes == [] then 0
    else CountIn(notes[..|notes| - 1], c) + if IsIn(notes[|notes| - 1], c) then 1 else 0
  }

  function AllNotes(on: bool, batch: seq<Script>): seq<Note> {
    if batch == [] then [] else AllNotes(on, batch[..|batch| - 1]) + Notes(on, batch[|batch| - 1])
  }

  /** The byte strings handed to the node for one transaction. */
  function Sends(on: bool, tx: Script): seq<Bytes> {
    [if Differs(on, tx) then tx.fuzzed.value else tx.original] + if FallsBack(on, tx) then [tx.original] else []
  }

  function AllSends(on: bool, batch: seq<Script>): seq<seq<Bytes>> {
    if batch == [] then [] else AllSends(on, batch[..|batch| - 1]) + [Sends(on, batch[|batch| - 1])]
  }

  datatype Kind = LandedFirst | LandedByFallback | WasFuzzed | FailedFirst

  predicate Is(kind: Kind, on: bool, tx: Script) {
    match kind
    case LandedFirst => Landed(tx.first)
    case LandedByFallback => FallsBack(on, tx) && Landed(tx.fallback)
    case WasFuzzed => Differs(on, tx)
    case FailedFirst => tx.first.Failed?
  }

  function One(kind: Kind, on: bool, tx: Script): nat { if Is(kind, on, tx) then 1 else 0 }

  function Count(kind: Kind, on: bool, batch: seq<Script>): nat {
    if batch == [] then 0 else Count(kind, on, batch[..|batch| - 1]) + One(kind, on, batch[|batch| - 1])
  }

  /** The summary of a block, counted from what happened to each transaction. */
  function Summary(on: bool, batch: seq<Script>): Counters {
    var notes := AllNotes(on, batch);
    Counters(Count(LandedFirst, on, batch) + Count(LandedByFallback, on, batch),
             CountIn(notes, Timeout), CountIn(notes, Sequence), CountIn(notes, OutOfGas), CountIn(notes, Other),
             Count(WasFuzzed, on, batch), Count(LandedByFallback, on, batch))
  }

  // ----- the loop

  const OUT_OF_GAS := "out of gas"

  /** `categorizeError` */
  function Categorize(message: string): Category {
    if Contains(message, "tx timeout height") then Timeout
    else if Contains(message, "account sequence mismatch") then Sequence
    else if Contains(message, OUT_OF_GAS) then OutOfGas
    else Other
  }

  function Bump(c: Counters, category: Category): Counters {
    match category
    case Timeout => c.(timeout := c.timeout + 1)
    case Sequence => c.(sequence := c.sequence + 1)
    case OutOfGas => c.(outOfGas := c.outOfGas + 1)
    case Other => c.(other := c.other + 1)
  }

  /** `fuzzTransactions`: the bytes to send, and whether they differ from the original. */
  function Fuzz(on: bool, tx: Script): (r: (Bytes, bool))
    ensures r.1 <==> r.0 != tx.original
    ensures r.1 ==> on && tx.fuzzed == Some(r.0)
    ensures r.1 <==> on && tx.fuzzed.Some? && tx.fuzzed.value != tx.original
  {
    if !on || tx.fuzzed.None? || tx.fuzzed.value == tx.original then (tx.original, false) else (tx.fuzzed.value, true)
  }

  /** `handleFallbackBroadcast`: an empty hash is an error of its own. */
  function Fallback(tx: Script): Result {
    if tx.fallback.Accepted? && tx.fallback.hash == "" then Failed("fallback transaction returned empty hash")
    else tx.fallback
  }

  /** The counters with these errors recorded and these transactions counted. */
  function Plus(c: Counters, notes: seq<Note>, success: nat, fuzzed: nat, fallback: nat): Counters {
    Counters(c.success + success, c.timeout + CountIn(notes, Timeout), c.sequence + CountIn(notes, Sequence),
             c.outOfGas + CountIn(notes, OutOfGas), c.other + CountIn(notes, Other),
             c.fuzzed + fuzzed, c.fallback + fallback)
  }

  lemma CountOne(n: Note, c: Category)
    ensures CountIn([n], c) == if IsIn(n, c) then 1 else 0
  {
    assert [n][..0] == [];
  }

  lemma {:induction false} CountAppend(a: seq<Note>, b: seq<Note>, c: Category)
    ensures CountIn(a + b, c) == CountIn(a, c) + CountIn(b, c)
  {
    if b == [] {
      assert a + b == a;
    } else {
      CountAppend(a, b[..|b| - 1], c);
      assert (a + b)[..|a + b| - 1] == a + b[..|b| - 1];
    }
  }

  /** Bumping the category of a message records the message. */
  lemma BumpRecords(c: Counters, message: string)
    ensures Bump(c, Categorize(message)) == Plus(c, [Text(message)], 0, 0, 0)
  {
    CountOne(Text(message), Timeout);
    CountOne(Text(message), Sequence);
    CountOne(Text(message), OutOfGas);
    CountOne(Text(message), Other);
  }

  lemma PlusPlus(c: Counters, a: seq<Note>, f: nat, b: seq<Note>, success: nat, fallback: nat)
    ensures Plus(Plus(c, a, 0, f, 0), b, success, 0, fallback) == Plus(c, a + b, success, f, fallback)
  {
    CountAppend(a, b, Timeout);
    CountAppend(a, b, Sequence);
    CountAppend(a, b, OutOfGas);
    CountAppend(a, b, Other);
  }

  lemma RecordTwice(c: Counters, m1: string, m2: string)
    ensures Bump(Bump(c, Categorize(m1)), Categorize(m2)) == Plus(c, [Text(m1), Text(m2)], 0, 0, 0)
  {
    BumpRecords(c, m1);
    BumpRecords(Bump(c, Categorize(m1)), m2);
    PlusPlus(c, [Text(m1)], 0, [Text(m2)], 0, 0);
    assert [Text(m1)] + [Text(m2)] == [Text(m1), Text(m2)];
  }

  lemma RecordNoHash(c: Counters)
    ensures c.(other := c.other + 1) == Plus(c, [NoHash], 0, 0, 0)
  {
    CountOne(NoHash, Timeout);
    CountOne(NoHash, Sequence);
    CountOne(NoHash, OutOfGas);
    CountOne(NoHash, Other);
  }

  lemma AfterFuzzing(c: Counters, fuzzed: nat, notes: seq<Note>, success: nat, fallback: nat)
    ensures Plus(c.(fuzzed := c.fuzzed + fuzzed), notes, success, 0, fallback)
            == Plus(c, notes, success, fuzzed, fallback)
  {
  }

  /** A failed first broadcast: record the error, then fall back or record it once more. */
  method HandleFailure(on: bool, tx: Script, wasFuzzed: bool, before: Counters)
    returns (c: Counters, resent: seq<Bytes>)
    requires tx.first.Failed? && wasFuzzed == Differs(on, tx)
    ensures resent == if FallsBack(on, tx) then [tx.original] else []
    ensures c == Plus(before, Notes(on, tx), One(LandedByFallback, on, tx), 0, One(LandedByFallback, on, tx))
  {
    var message := tx.first.message;
    BumpRecords(before, message);
    RecordTwice(before, message, message);
    c, resent := Bump(before, Categorize(message)), [];
    if wasFuzzed && Contains(message, OUT_OF_GAS) {
      resent := [tx.original];
      var result := Fallback(tx);
      if result.Accepted? {
        c := c.(success := c.success + 1, fallback := c.fallback + 1);
      } else {
        RecordTwice(before, message, result.message);
        c := Bump(c, Categorize(result.message));
      }
    } else {
      c := Bump(c, Categorize(message));
    }
  }

  /** One transaction of the block. */
  method BroadcastOne(on: bool, tx: Script, before: Counters) returns (c: Counters, sent: seq<Bytes>)
    ensures sent == Sends(on, tx)
    ensures c == Plus(before, Notes(on, tx), One(LandedFirst, on, tx) + One(LandedByFallback, on, tx),
                      One(WasFuzzed, on, tx), One(LandedByFallback, on, tx))
  {
    var (bytes, wasFuzzed) := Fuzz(on, tx);
    c, sent := before, [bytes];
    if wasFuzzed {
      c := c.(fuzzed := c.fuzzed + 1);
    }
    AfterFuzzing(before, One(WasFuzzed, on, tx), Notes(on, tx),
                 One(LandedFirst, on, tx) + One(LandedByFallback, on, tx), One(LandedByFallback, on, tx));
    if tx.first.Failed? {
      var resent;
      c, resent := HandleFailure(on, tx, wasFuzzed, c);
      sent := sent + resent;
    } else if tx.first.hash == "" {
      RecordNoHash(c);
      c := c.(other := c.other + 1);
    } else {
      c := c.(success := c.success + 1);
    }
  }

  lemma SummaryStep(on: bool, batch: seq<Script>, i: nat)
    requires i < |batch|
    ensures var tx := batch[i];
            Summary(on, batch[..i + 1])
            == Plus(Summary(on, batch[..i]), Notes(on, tx), One(LandedFirst, on, tx) + One(LandedByFallback, on, tx),
                    One(WasFuzzed, on, tx), One(LandedByFallback, on, tx))
    ensures AllSends(on, batch[..i + 1]) == AllSends(on, batch[..i]) + [Sends(on, batch[i])]
  {
    assert batch[..i + 1][..i] == batch[..i];
    var notes := AllNotes(on, batch[..i]);
    CountAppend(notes, Notes(on, batch[i]), Timeout);
    CountAppend(notes, Notes(on, batch[i]), Sequence);
    CountAppend(notes, Notes(on, batch[i]), OutOfGas);
    CountAppend(notes, Notes(on, batch[i]), Other);
  }

  method BroadcastBlock(on: bool, batch: seq<Script>) returns (c: Counters, sent: seq<seq<Bytes>>)
    ensures c == Summary(on, batch) && sent == AllSends(on, batch)
  {
    c, sent := Counters(0, 0, 0, 0, 0, 0, 0), [];
    for i := 0 to |batch|
      invariant c == Summary(on, batch[..i]) && sent == AllSends(on, batch[..i])
    {
      var one;
      c, one := BroadcastOne(on, batch[i], c);
      sent := sent + [one];
      SummaryStep(on, batch, i);
    }
    assert batch[..|batch|] == batch;
  }

  // ----- what the summary promises

  lemma {:induction false} CountBounds(on: bool, batch: seq<Script>)
    ensures Count(LandedByFallback, on, batch) <= Count(WasFuzzed, on, batch) <= |batch|
    ensures Count(LandedFirst, on, batch) + Count(LandedByFallback, on, batch) <= |batch|
    ensures !on ==> Count(WasFuzzed, on, batch) == 0
    ensures Count(LandedFirst, on, batch) + Count(LandedByFallback, on, batch) + |AllNotes(on, batch)|
            == |batch| + Count(FailedFirst, on, batch)
  {
    if batch != [] {
      CountBounds(on, batch[..|batch| - 1]);
    }
  }

  /** Every entry is of exactly one kind. */
  lemma {:induction false} KindsCover(notes: seq<Note>)
    ensures |notes|
            == CountIn(notes, Timeout) + CountIn(notes, Sequence) + CountIn(notes, OutOfGas) + CountIn(notes, Other)
  {
    if notes != [] {
      KindsCover(notes[..|notes| - 1]);
    }
  }

  /**
   Success and the four error counters add up to the number of transactions plus the number of those whose first
   broadcast failed, because such a transaction is always counted twice.
   */
  lemma SummaryBalances(on: bool, batch: seq<Script>)
    ensures var c := Summary(on, batch);
            && c.success + c.timeout + c.sequence + c.outOfGas + c.other == |batch| + Count(FailedFirst, on, batch)
            && c.fallback <= c.fuzzed <= |batch| && c.fallback <= c.success <= |batch|
            && (!on ==> c.fuzzed == 0)
  {
    KindsCover(AllNotes(on, batch));
    CountBounds(on, batch);
  }

  /**
   A transaction is sent once, or twice if a fuzzed one failed for want of gas; the second time with its original bytes,
   and never the same bytes twice.
   */
  lemma {:induction false} FallbackSendsOtherBytes(on: bool, batch: seq<Script>, i: nat)
    requires i < |batch|
    ensures |AllSends(on, batch)| == |batch|
    ensures var sends := AllSends(on, batch)[i];
            && 1 <= |sends| <= 2 && (|sends| == 2 <==> FallsBack(on, batch[i]))
            && (|sends| == 2 ==> sends[1] == batch[i].original && sends[0] != sends[1] && on)
  {
    if i < |batch| - 1 {
      FallbackSendsOtherBytes(on, batch[..|batch| - 1], i);
    } else if i > 0 {
      FallbackSendsOtherBytes(on, batch[..|batch| - 1], 0);
    }
  }
}
