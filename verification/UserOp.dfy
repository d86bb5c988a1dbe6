/** ERC-4337 v0.7 user operations: packing, the hash that is signed, and the signature. */
module UserOps {
  import opened Words
  import BE = BigEndian

  type Address = bs: Bytes | |bs| == 20 witness NO_BYTES[..20]
  type Word = bs: Bytes | |bs| == 32 witness NO_BYTES

  const NO_BYTES: Bytes :=
    [0, 0, 0, 0, 0, 0, 0, 0, 0, 0, 0, 0, 0, 0, 0, 0, 0, 0, 0, 0, 0, 0, 0, 0, 0, 0, 0, 0, 0, 0, 0, 0]
  const NO_ADDRESS: Address := NO_BYTES[..20]

  datatype UserOperation = UserOperation(
    sender: Address, nonce: int, initCode: Bytes, callData: Bytes,
    callGasLimit: int, verificationGasLimit: int, preVerificationGas: int,
    maxFeePerGas: int, maxPriorityFeePerGas: int,
    paymaster: Address, paymasterVerificationGasLimit: int, paymasterPostOpGasLimit: int, paymasterData: Bytes,
    signature: Bytes)

  datatype PackedUserOperation = PackedUserOperation(
    sender: Address, nonce: int, initCode: Bytes, callData: Bytes,
    accountGasLimits: Word, preVerificationGas: int, gasFees: Word,
    paymasterAndData: Bytes, signature: Bytes)

  // ----- packing

  function Abs(n: int): nat { if n < 0 then -n else n }

  /** A number left-padded to 16 bytes; the sign is lost. */
  function Half(n: int): Bytes { BE.LeftPad(BE.Encode(Abs(n)), 16) }

  function PackPaymaster(paymaster: Address, verification: int, postOp: int, data: Bytes): Bytes {
    paymaster + Half(verification) + Half(postOp) + data
  }

  /** None is the panic for a word that is not 32 bytes long. */
  function Pack(op: UserOperation): Option<PackedUserOperation> {
    var accountGasLimits := Half(op.verificationGasLimit) + Half(op.callGasLimit);
    var gasFees := Half(op.maxPriorityFeePerGas) + Half(op.maxFeePerGas);
    if |accountGasLimits| != 32 || |gasFees| != 32 then None else
      var paymasterAndData := if op.paymaster != NO_ADDRESS
        then PackPaymaster(op.paymaster, op.paymasterVerificationGasLimit, op.paymasterPostOpGasLimit, op.paymasterData)
        else [];
      Some(PackedUserOperation(op.sender, op.nonce, op.initCode, op.callData, accountGasLimits, op.preVerificationGas,
                               gasFees, paymasterAndData, op.signature))
  }

  /** The inverse the specification uses: the two 16-byte halves of a word, as numbers. */
  function UnpackPair(w: Word): (nat, nat) { (BE.Decode(w[..16]), BE.Decode(w[16..])) }

  function UnpackPaymaster(bs: Bytes): Option<(Address, nat, nat, Bytes)> {
    if |bs| < 52 then None else Some((bs[..20], BE.Decode(bs[20..36]), BE.Decode(bs[36..52]), bs[52..]))
  }

  predicate Fits(n: int) { Abs(n) < BE.Pow(16) }

  lemma HalfField(n: int)
    ensures |Half(n)| >= 16 && (|Half(n)| == 16 <==> Fits(n)) && BE.Decode(Half(n)) == Abs(n)
  {
    BE.Field(Abs(n), 16);
  }

  lemma Pow16()
    ensures BE.Pow(16) == 0x1_0000_0000_0000_0000_0000_0000_0000_0000
  {
    assert BE.Pow(4) == 0x1_0000_0000;
    assert BE.Pow(8) == 256 * (256 * (256 * (256 * BE.Pow(4))));
    assert BE.Pow(12) == 256 * (256 * (256 * (256 * BE.Pow(8))));
    assert BE.Pow(16) == 256 * (256 * (256 * (256 * BE.Pow(12))));
  }

  lemma PairSplits(a: int, b: int)
    ensures |Half(a) + Half(b)| == 32 <==> Fits(a) && Fits(b)
    ensures |Half(a) + Half(b)| == 32 ==> UnpackPair(Half(a) + Half(b)) == (Abs(a), Abs(b))
  {
    HalfField(a);
    HalfField(b);
    if Fits(a) && Fits(b) {
      assert (Half(a) + Half(b))[..16] == Half(a) && (Half(a) + Half(b))[16..] == Half(b);
    }
  }

  /** Packing panics exactly when one of the four values does not fit in 128 bits; otherwise both words split back. */
  lemma PackCorrect(op: UserOperation)
    ensures Pack(op).Some? <==>
            && Fits(op.verificationGasLimit) && Fits(op.callGasLimit)
            && Fits(op.maxPriorityFeePerGas) && Fits(op.maxFeePerGas)
    ensures Pack(op).Some? ==>
              var p := Pack(op).value;
              && UnpackPair(p.accountGasLimits) == (Abs(op.verificationGasLimit), Abs(op.callGasLimit))
              && UnpackPair(p.gasFees) == (Abs(op.maxPriorityFeePerGas), Abs(op.maxFeePerGas))
  {
    PairSplits(op.verificationGasLimit, op.callGasLimit);
    PairSplits(op.maxPriorityFeePerGas, op.maxFeePerGas);
  }

  /** Packing copies the other fields; the paymaster's reads back where there is one and its limits fit. */
  lemma PackKeeps(op: UserOperation)
    ensures Pack(op).Some? ==>
              var p := Pack(op).value;
              && p.sender == op.sender && p.nonce == op.nonce && p.preVerificationGas == op.preVerificationGas
              && p.initCode == op.initCode && p.callData == op.callData && p.signature == op.signature
              && (op.paymaster == NO_ADDRESS ==> p.paymasterAndData == [])
              && var v, o := op.paymasterVerificationGasLimit, op.paymasterPostOpGasLimit;
                 op.paymaster != NO_ADDRESS && Fits(v) && Fits(o) ==>
                   UnpackPaymaster(p.paymasterAndData) == Some((op.paymaster, Abs(v), Abs(o), op.paymasterData))
  {
    PaymasterSplits(op.paymaster, op.paymasterVerificationGasLimit, op.paymasterPostOpGasLimit, op.paymasterData);
  }

  lemma Slices(a: Bytes, x: Bytes, y: Bytes, d: Bytes, bs: Bytes)
    requires bs == a + x + y + d && |a| == 20 && |x| == |y| == 16
    ensures bs[..20] == a && bs[20..36] == x && bs[36..52] == y && bs[52..] == d
  {
  }

  /** The paymaster field reads back exactly when both of its limits fit in 128 bits, which packing does not check. */
  lemma PaymasterSplits(paymaster: Address, v: int, o: int, data: Bytes)
    ensures UnpackPaymaster(PackPaymaster(paymaster, v, o, data)) == Some((paymaster, Abs(v), Abs(o), data))
            <==> Fits(v) && Fits(o)
  {
    var bs := PackPaymaster(paymaster, v, o, data);
    HalfField(v);
    HalfField(o);
    if Fits(v) && Fits(o) {
      Slices(paymaster, Half(v), Half(o), data, bs);
    } else {
      BE.DecodeBound(bs[20..36]);
      BE.DecodeBound(bs[36..52]);
    }
  }

  lemma PackPaymasterAssoc(paymaster: Address, v: int, o: int, data: Bytes)
    ensures PackPaymaster(paymaster, v, o, data) == paymaster + (Half(v) + Half(o) + data)
  {
  }

  lemma ShiftedZeros()
    ensures [1] + BE.Zeros(16) + BE.Zeros(16) + [] == [1] + BE.Zeros(15) + BE.Zeros(16) + [0]
  {
  }

  /** Beyond 128 bits two different paymaster fields can be packed to the same bytes. */
  lemma PaymasterAmbiguous(paymaster: Address)
    ensures PackPaymaster(paymaster, BE.Pow(16), 0, []) == PackPaymaster(paymaster, BE.Pow(15), 0, [0])
  {
    PackPaymasterAssoc(paymaster, BE.Pow(16), 0, []);
    PackPaymasterAssoc(paymaster, BE.Pow(15), 0, [0]);
    assert Half(BE.Pow(16)) == [1] + BE.Zeros(16) by { BE.EncodePow(16); }
    assert Half(BE.Pow(15)) == [1] + BE.Zeros(15) by { BE.EncodePow(15); }
    assert Half(0) == BE.Zeros(16);
    ShiftedZeros();
  }

  // ----- hashing

  /** ABI words. */
  function AddressWord(a: Address): Word { BE.Zeros(12) + a }

  function UintWord(n: int): Word {
    var m := n % BE.Pow(32);
    BE.Field(m, 32);
    BE.LeftPad(BE.Encode(m), 32)
  }

  function Join(ws: seq<Word>): Bytes { if ws == [] then [] else ws[0] + Join(ws[1..]) }

  /** Keccak-256 is a parameter throughout. */
  function SignedWords(keccak: Bytes -> Word, p: PackedUserOperation): seq<Word> {
    [AddressWord(p.sender), UintWord(p.nonce), keccak(p.initCode), keccak(p.callData), p.accountGasLimits,
     UintWord(p.preVerificationGas), p.gasFees, keccak(p.paymasterAndData)]
  }

  function EncodeForSignature(keccak: Bytes -> Word, p: PackedUserOperation): Bytes { Join(SignedWords(keccak, p)) }

  function DomainMessage(keccak: Bytes -> Word, p: PackedUserOperation, entryPoint: Address, chainId: int): Bytes {
    Join([keccak(EncodeForSignature(keccak, p)), AddressWord(entryPoint), UintWord(chainId)])
  }

  function GetUserOpHash(keccak: Bytes -> Word, p: PackedUserOperation, entryPoint: Address, chainId: int): Word {
    keccak(DomainMessage(keccak, p, entryPoint, chainId))
  }

  lemma {:induction false} JoinInjective(a: seq<Word>, b: seq<Word>)
    requires |a| == |b| && Join(a) == Join(b)
    ensures a == b
  {
    if a != [] {
      assert a[0] == Join(a)[..32] && b[0] == Join(b)[..32];
      assert Join(a[1..]) == Join(a)[32..] && Join(b[1..]) == Join(b)[32..];
      JoinInjective(a[1..], b[1..]);
    }
  }

  lemma {:induction false} JoinAt(ws: seq<Word>, k: nat)
    requires k < |ws|
    ensures |Join(ws)| == 32 * |ws| && Join(ws)[32 * k..32 * k + 32] == ws[k]
  {
    var rest := Join(ws[1..]);
    if k > 0 {
      JoinAt(ws[1..], k - 1);
      assert Join(ws)[32 * k..32 * k + 32] == rest[32 * (k - 1)..32 * (k - 1) + 32];
    } else if |ws| > 1 {
      JoinAt(ws[1..], 0);
    }
  }

  /** The signed message byte by byte: eight words, in this order. */
  ghost predicate IsEncoding(keccak: Bytes -> Word, p: PackedUserOperation, e: Bytes) {
    && |e| == 256
    && e[..12] == [0, 0, 0, 0, 0, 0, 0, 0, 0, 0, 0, 0] && e[12..32] == p.sender
    && BE.Decode(e[32..64]) == p.nonce % BE.Pow(32)
    && e[64..96] == keccak(p.initCode)
    && e[96..128] == keccak(p.callData)
    && e[128..160] == p.accountGasLimits
    && BE.Decode(e[160..192]) == p.preVerificationGas % BE.Pow(32)
    && e[192..224] == p.gasFees
    && e[224..256] == keccak(p.paymasterAndData)
  }

  /** The message whose hash identifies the operation: the hash of the encoding, the entry point and the chain. */
  ghost predicate IsDomainMessage(hash: Word, entryPoint: Address, chainId: int, m: Bytes) {
    && |m| == 96
    && m[..32] == hash
    && m[32..44] == [0, 0, 0, 0, 0, 0, 0, 0, 0, 0, 0, 0] && m[44..64] == entryPoint
    && BE.Decode(m[64..96]) == chainId % BE.Pow(32)
  }

  lemma AddressWordLayout(w: Word, a: Address)
    requires w == AddressWord(a)
    ensures w[..12] == [0, 0, 0, 0, 0, 0, 0, 0, 0, 0, 0, 0] && w[12..32] == a
  {
  }

  lemma EncodingLayout(keccak: Bytes -> Word, p: PackedUserOperation)
    ensures IsEncoding(keccak, p, EncodeForSignature(keccak, p))
  {
    var ws, e := SignedWords(keccak, p), EncodeForSignature(keccak, p);
    forall k | 0 <= k < 8 ensures |e| == 256 && e[32 * k..32 * k + 32] == ws[k] {
      JoinAt(ws, k);
    }
    assert e[32 * 0..32] == ws[0] && e[32 * 1..64] == ws[1] && e[32 * 2..96] == ws[2] && e[32 * 3..128] == ws[3];
    assert e[32 * 4..160] == ws[4] && e[32 * 5..192] == ws[5] && e[32 * 6..224] == ws[6] && e[32 * 7..256] == ws[7];
    AddressWordLayout(e[..32], p.sender);
    assert e[..12] == e[..32][..12] && e[12..32] == e[..32][12..32];
    UintWordReadsBack(p.nonce);
    UintWordReadsBack(p.preVerificationGas);
  }

  lemma DomainLayout(keccak: Bytes -> Word, p: PackedUserOperation, entryPoint: Address, chainId: int)
    ensures IsDomainMessage(keccak(EncodeForSignature(keccak, p)), entryPoint, chainId,
                            DomainMessage(keccak, p, entryPoint, chainId))
  {
    var ws := [keccak(EncodeForSignature(keccak, p)), AddressWord(entryPoint), UintWord(chainId)];
    var m := Join(ws);
    JoinAt(ws, 0);
    JoinAt(ws, 1);
    JoinAt(ws, 2);
    assert m[32 * 0..32] == ws[0] && m[32 * 1..64] == ws[1] && m[32 * 2..96] == ws[2];
    AddressWordLayout(m[32..64], entryPoint);
    assert m[32..44] == m[32..64][..12] && m[44..64] == m[32..64][12..32];
    UintWordReadsBack(chainId);
  }

  /** The hash is the one the entry point computes: of a domain message about the hash of the encoding. */
  lemma HashLayout(keccak: Bytes -> Word, p: PackedUserOperation, entryPoint: Address, chainId: int)
    returns (e: Bytes, m: Bytes)
    ensures IsEncoding(keccak, p, e) && IsDomainMessage(keccak(e), entryPoint, chainId, m)
    ensures GetUserOpHash(keccak, p, entryPoint, chainId) == keccak(m)
  {
    e, m := EncodeForSignature(keccak, p), DomainMessage(keccak, p, entryPoint, chainId);
    EncodingLayout(keccak, p);
    DomainLayout(keccak, p, entryPoint, chainId);
  }

  /** What a 256-bit word can tell apart. */
  predicate Agree(m: int, n: int) { m % BE.Pow(32) == n % BE.Pow(32) }

  lemma UintWordReadsBack(n: int)
    ensures BE.Decode(UintWord(n)) == n % BE.Pow(32)
  {
    BE.Field(n % BE.Pow(32), 32);
  }

  lemma UintWordsAgree(m: int, n: int)
    requires UintWord(m) == UintWord(n)
    ensures Agree(m, n)
  {
    UintWordReadsBack(m);
    UintWordReadsBack(n);
  }

  /** Numbers less than 2^256 apart agree exactly when they are equal: unsigned 256-bit numbers, or signed ones. */
  lemma AgreeNearby(m: int, n: int)
    requires m - n < BE.Pow(32) && n - m < BE.Pow(32)
    ensures Agree(m, n) <==> m == n
  {
    SameRemainder(m, n, BE.Pow(32));
  }

  lemma SameRemainder(m: int, n: int, p: int)
    requires p > 0 && -p < m - n < p
    ensures m % p == n % p <==> m == n
  {
    if m % p == n % p {
      SmallMultiple(p, m / p, n / p, m - n);
    }
  }

  lemma SmallMultiple(p: int, j: int, k: int, d: int)
    requires p > 0 && d == p * j - p * k && -p < d < p
    ensures d == 0
  {
    if j > k {
      Steps(p, k, j);
    } else if j < k {
      Steps(p, j, k);
    }
  }

  lemma {:induction false} Steps(p: int, j: int, k: int)
    requires p > 0 && j < k
    ensures p * k >= p * j + p
    decreases k - j
  {
    NextMultiple(p, k - 1);
    if j < k - 1 {
      Steps(p, j, k - 1);
    }
  }

  lemma NextMultiple(p: int, k: int)
    ensures p * (k + 1) == p * k + p
  {
  }

  lemma AddressWordInjective(a: Address, b: Address)
    requires AddressWord(a) == AddressWord(b)
    ensures a == b
  {
    assert a == AddressWord(a)[12..] && b == AddressWord(b)[12..];
  }

  /** Keccak does not collide on this pair of messages. */
  ghost predicate Apart(keccak: Bytes -> Word, x: Bytes, y: Bytes) { keccak(x) == keccak(y) ==> x == y }

  /** ... nor on any of the five pairs that hashing two operations compares. */
  ghost predicate NoCollision(keccak: Bytes -> Word, p: PackedUserOperation, q: PackedUserOperation,
                              entryP: Address, entryQ: Address, chainP: int, chainQ: int)
  {
    && Apart(keccak, p.initCode, q.initCode) && Apart(keccak, p.callData, q.callData)
    && Apart(keccak, p.paymasterAndData, q.paymasterAndData)
    && Apart(keccak, EncodeForSignature(keccak, p), EncodeForSignature(keccak, q))
    && Apart(keccak, DomainMessage(keccak, p, entryP, chainP), DomainMessage(keccak, q, entryQ, chainQ))
  }

  /** The same operation up to its signature, and up to what a word can tell apart of its two numbers. */
  ghost predicate SameOperation(p: PackedUserOperation, q: PackedUserOperation) {
    && p.(nonce := q.nonce, preVerificationGas := q.preVerificationGas, signature := q.signature) == q
    && Agree(p.nonce, q.nonce) && Agree(p.preVerificationGas, q.preVerificationGas)
  }

  /** Equal encodings agree on every field but the signature. */
  lemma EncodingBinds(keccak: Bytes -> Word, p: PackedUserOperation, q: PackedUserOperation)
    requires EncodeForSignature(keccak, p) == EncodeForSignature(keccak, q)
    requires Apart(keccak, p.initCode, q.initCode) && Apart(keccak, p.callData, q.callData)
    requires Apart(keccak, p.paymasterAndData, q.paymasterAndData)
    ensures SameOperation(p, q)
  {
    var a, b := SignedWords(keccak, p), SignedWords(keccak, q);
    JoinInjective(a, b);
    assert a[0] == b[0] && a[1] == b[1] && a[2] == b[2] && a[3] == b[3];
    assert a[4] == b[4] && a[5] == b[5] && a[6] == b[6] && a[7] == b[7];
    AddressWordInjective(p.sender, q.sender);
    UintWordsAgree(p.nonce, q.nonce);
    UintWordsAgree(p.preVerificationGas, q.preVerificationGas);
  }

  /** Equal hashes imply the same entry point, the same chain and the same operation up to its signature. */
  lemma HashBinds(keccak: Bytes -> Word, p: PackedUserOperation, q: PackedUserOperation,
                  entryP: Address, entryQ: Address, chainP: int, chainQ: int)
    requires NoCollision(keccak, p, q, entryP, entryQ, chainP, chainQ)
    requires GetUserOpHash(keccak, p, entryP, chainP) == GetUserOpHash(keccak, q, entryQ, chainQ)
    ensures entryP == entryQ && Agree(chainP, chainQ) && SameOperation(p, q)
  {
    var a := [keccak(EncodeForSignature(keccak, p)), AddressWord(entryP), UintWord(chainP)];
    var b := [keccak(EncodeForSignature(keccak, q)), AddressWord(entryQ), UintWord(chainQ)];
    JoinInjective(a, b);
    assert a[0] == b[0] && a[1] == b[1] && a[2] == b[2];
    AddressWordInjective(entryP, entryQ);
    UintWordsAgree(chainP, chainQ);
    EncodingBinds(keccak, p, q);
  }

  /** The hash does not depend on the signature. */
  lemma SignatureFree(keccak: Bytes -> Word, p: PackedUserOperation, signature: Bytes,
                      entryPoint: Address, chainId: int)
    ensures GetUserOpHash(keccak, p.(signature := signature), entryPoint, chainId)
            == GetUserOpHash(keccak, p, entryPoint, chainId)
  {
    assert SignedWords(keccak, p.(signature := signature)) == SignedWords(keccak, p);
  }

  /** Packing keeps the magnitude of a number and drops its sign. */
  ghost predicate SameGas(a: UserOperation, b: UserOperation) {
    && Abs(a.verificationGasLimit) == Abs(b.verificationGasLimit) && Abs(a.callGasLimit) == Abs(b.callGasLimit)
    && Abs(a.maxPriorityFeePerGas) == Abs(b.maxPriorityFeePerGas) && Abs(a.maxFeePerGas) == Abs(b.maxFeePerGas)
  }

  ghost predicate SamePaymaster(a: UserOperation, b: UserOperation) {
    && a.paymaster == b.paymaster && a.paymasterData == b.paymasterData
    && Abs(a.paymasterVerificationGasLimit) == Abs(b.paymasterVerificationGasLimit)
    && Abs(a.paymasterPostOpGasLimit) == Abs(b.paymasterPostOpGasLimit)
  }

  lemma PaymasterBinds(a: UserOperation, b: UserOperation)
    requires a.paymaster != NO_ADDRESS && b.paymaster != NO_ADDRESS
    requires Fits(a.paymasterVerificationGasLimit) && Fits(a.paymasterPostOpGasLimit)
    requires Fits(b.paymasterVerificationGasLimit) && Fits(b.paymasterPostOpGasLimit)
    requires PackPaymaster(a.paymaster, a.paymasterVerificationGasLimit, a.paymasterPostOpGasLimit, a.paymasterData)
             == PackPaymaster(b.paymaster, b.paymasterVerificationGasLimit, b.paymasterPostOpGasLimit, b.paymasterData)
    ensures SamePaymaster(a, b)
  {
    PaymasterSplits(a.paymaster, a.paymasterVerificationGasLimit, a.paymasterPostOpGasLimit, a.paymasterData);
    PaymasterSplits(b.paymaster, b.paymasterVerificationGasLimit, b.paymasterPostOpGasLimit, b.paymasterData);
  }

  /** Packing and hashing together: operations with the same hash agree on every unpacked field the hash covers. */
  lemma HashBindsUserOperation(keccak: Bytes -> Word, a: UserOperation, b: UserOperation,
                               entryA: Address, entryB: Address, chainA: int, chainB: int)
    requires Pack(a).Some? && Pack(b).Some?
    requires NoCollision(keccak, Pack(a).value, Pack(b).value, entryA, entryB, chainA, chainB)
    requires GetUserOpHash(keccak, Pack(a).value, entryA, chainA)
             == GetUserOpHash(keccak, Pack(b).value, entryB, chainB)
    ensures entryA == entryB && Agree(chainA, chainB)
    ensures a.sender == b.sender && Agree(a.nonce, b.nonce) && a.initCode == b.initCode && a.callData == b.callData
    ensures SameGas(a, b) && Agree(a.preVerificationGas, b.preVerificationGas)
    ensures a.paymaster == NO_ADDRESS <==> b.paymaster == NO_ADDRESS
    ensures && a.paymaster != NO_ADDRESS
            && Fits(a.paymasterVerificationGasLimit) && Fits(a.paymasterPostOpGasLimit)
            && Fits(b.paymasterVerificationGasLimit) && Fits(b.paymasterPostOpGasLimit)
            ==> SamePaymaster(a, b)
  {
    HashBinds(keccak, Pack(a).value, Pack(b).value, entryA, entryB, chainA, chainB);
    PackCorrect(a);
    PackCorrect(b);
    if a.paymaster != NO_ADDRESS && b.paymaster != NO_ADDRESS
       && Fits(a.paymasterVerificationGasLimit) && Fits(a.paymasterPostOpGasLimit)
       && Fits(b.paymasterVerificationGasLimit) && Fits(b.paymasterPostOpGasLimit)
    {
      PaymasterBinds(a, b);
    }
  }

  // ----- signing

  /** "\x19Ethereum Signed Message:\n32": version byte 0x45 of EIP-191 and the length of a hash. */
  const PREFIX: Bytes := [0x19, 0x45, 0x74, 0x68, 0x65, 0x72, 0x65, 0x75, 0x6D, 0x20, 0x53, 0x69, 0x67, 0x6E,
                          0x65, 0x64, 0x20, 0x4D, 0x65, 0x73, 0x73, 0x61, 0x67, 0x65, 0x3A, 0x0A, 0x33, 0x32]

  const SIGNATURE_TYPE_EOA: byte := 0

  datatype SignResult =
    | Signed(op: PackedUserOperation, hash: Word)
    | SigningFailed(op: PackedUserOperation)
    | Panicked

  function SignedText(hash: Word): Bytes { PREFIX + hash }

  /** Moves the recovery id from 0/1 to 27/28, in place. */
  method EcSigToRPC(sig: array<byte>)
    requires sig.Length >= 65
    modifies sig
    ensures sig[64] == (old(sig[64]) as int + 27) % 256
    ensures forall i :: 0 <= i < sig.Length && i != 64 ==> sig[i] == old(sig[i])
  {
    sig[64] := Add8(sig[64], 27);
  }

  /** The signature attached to an operation: a type byte, then the signature with its recovery id shifted. */
  function Attached(sig: Bytes): Bytes
    requires |sig| == 65
  {
    [SIGNATURE_TYPE_EOA] + sig[64 := Add8(sig[64], 27)]
  }

  method AttachType(signature: Bytes) returns (attached: Bytes)
    requires |signature| == 65
    ensures attached == Attached(signature)
  {
    var sig := new byte[65](i requires 0 <= i < 65 => signature[i]);
    EcSigToRPC(sig);
    attached := [SIGNATURE_TYPE_EOA] + sig[..];
    assert sig[..] == signature[64 := Add8(signature[64], 27)];
  }

  /** The attached bytes: a zero, the signature but for its last byte, and that byte plus 27. */
  ghost predicate IsAttached(sig: Bytes, attached: Bytes)
    requires |sig| == 65
  {
    && |attached| == 66 && attached[0] == 0 && attached[1..65] == sig[..64]
    && attached[65] == (sig[64] as int + 27) % 256
  }

  lemma AttachedLayout(sig: Bytes)
    requires |sig| == 65
    ensures IsAttached(sig, Attached(sig))
  {
  }

  /** The signed bytes: the prefix of a personal message of 32 bytes, and the hash. */
  ghost predicate IsSignedText(hash: Word, text: Bytes) {
    var prefix := "\U{19}Ethereum Signed Message:\n32";
    && |text| == 60 && text[28..] == hash
    && forall i :: 0 <= i < 28 ==> text[i] as int == prefix[i] as int
  }

  lemma SignedTextLayout(hash: Word)
    ensures IsSignedText(hash, SignedText(hash))
  {
  }

  /** `sign` is the personal signer: it fails or returns a 65-byte signature of the message it is given. */
  method SignUserOperation(keccak: Bytes -> Word, sign: Bytes -> Option<Bytes>, op: UserOperation,
                           entryPoint: Address, chainId: int)
    returns (r: SignResult)
    requires forall m :: sign(m).Some? ==> |sign(m).value| == 65
    ensures r.Panicked? <==> Pack(op).None?
    ensures r.SigningFailed? ==>
              r.op == Pack(op).value && sign(SignedText(GetUserOpHash(keccak, r.op, entryPoint, chainId))).None?
    ensures r.Signed? ==>
              && r.hash == GetUserOpHash(keccak, r.op, entryPoint, chainId)
              && r.op.(signature := op.signature) == Pack(op).value
              && sign(SignedText(r.hash)).Some? && r.op.signature == Attached(sign(SignedText(r.hash)).value)
              && IsSignedText(r.hash, SignedText(r.hash))
              && IsAttached(sign(SignedText(r.hash)).value, r.op.signature)
  {
    var packed := Pack(op);
    if packed.None? {
      return Panicked;
    }
    var p := packed.value;
    var hash := GetUserOpHash(keccak, p, entryPoint, chainId);
    var signed := sign(SignedText(hash));
    if signed.None? {
      return SigningFailed(p);
    }
    var attached := AttachType(signed.value);
    SignatureFree(keccak, p, attached, entryPoint, chainId);
    SignedTextLayout(hash);
    AttachedLayout(signed.value);
    p := p.(signature := attached);
    r := Signed(p, hash);
  }

  // ----- deployment code

  function InitCode(factory: Address, createCall: Bytes): Bytes { factory + createCall }

  function GetFactory(op: UserOperation): Address {
    if |op.initCode| < 20 then NO_ADDRESS else op.initCode[..20]
  }

  function GetFactoryData(op: UserOperation): Bytes {
    if |op.initCode| < 20 then [] else op.initCode[20..]
  }

  /** Deployment code long enough for an address is the factory followed by its call; shorter code has neither. */
  lemma FactorySplits(op: UserOperation)
    ensures if |op.initCode| >= 20 then GetFactory(op) + GetFactoryData(op) == op.initCode
            else GetFactory(op) == NO_ADDRESS && GetFactoryData(op) == []
  {
  }
}
