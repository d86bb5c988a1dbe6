/**
 The provider that issues signed user operations in batches of fifty, numbering each light account's operations from
 the nonce fetched when the account was set up.  One call of GenerateTx is atomic.
 */
module UserOpNonces {
  import opened Words
  import opened UserOps
  import BE = BigEndian

  const OPS_PER_TX := 50

  /** A light account: `createCall` is the factory call that deploys it, `execute` its wrapper around a call. */
  datatype LightAccount =
    LightAccount(address: Address, factory: Address, deployed: bool, createCall: Bytes, execute: Bytes)

  /** `newUserOperation` with the provider's fixed gas numbers. */
  function NewUserOperation(la: LightAccount, nonce: uint64): UserOperation {
    var initCode := if !la.deployed && nonce == 0 then InitCode(la.factory, la.createCall) else [];
    UserOperation(la.address, ToInt(nonce), initCode,
                  la.execute, 22000, 75000, 21000, 0, 0, NO_ADDRESS, 300000, 0, [], [])
  }

  /** Operation k of an account whose nonce was `start` when it was set up. */
  function Nth(la: LightAccount, start: uint64, k: nat): UserOperation { NewUserOperation(la, Add64(start, k)) }

  // ----- what the stream of operations promises

  /** Nonces are consecutive while they stay below 2^63, which is where the conversion to a signed number ends. */
  lemma NoncesConsecutive(la: LightAccount, start: uint64, k: nat)
    ensures Nth(la, start, k).nonce == start + k <==> start + k < TWO_63
  {
    if start + k < TWO_64 {
      assert (start + k) % TWO_64 == start + k;
    }
  }

  /** Two operations of an account share a nonce only when a multiple of 2^64 operations lies between them. */
  lemma NoncesDistinct(la: LightAccount, start: uint64, j: nat, k: nat)
    requires j <= k
    ensures Nth(la, start, j).nonce == Nth(la, start, k).nonce <==> (k - j) % TWO_64 == 0
  {
    Add64Same(start, j, k);
  }

  /**
   Deployment code is on the operation with nonce zero of an account that is not deployed, and on no other: two
   operations with it would have to be 2^64 apart.
   */
  lemma DeploymentOnce(la: LightAccount, start: uint64, j: nat, k: nat)
    ensures Nth(la, start, k).initCode != [] <==> !la.deployed && Nth(la, start, k).nonce == 0
    ensures j < k && Nth(la, start, j).initCode != [] && Nth(la, start, k).initCode != [] ==> k - j >= TWO_64
  {
    if j < k {
      Add64Same(start, j, k);
    }
  }

  /** Where there is deployment code, it splits back into the factory and the call. */
  lemma DeploymentSplits(la: LightAccount, nonce: uint64)
    ensures var op := NewUserOperation(la, nonce);
            if op.initCode == [] then GetFactory(op) == NO_ADDRESS && GetFactoryData(op) == []
            else GetFactory(op) == la.factory && GetFactoryData(op) == la.createCall
  {
  }

  /** The provider's fixed gas numbers never make packing panic. */
  lemma Packable(la: LightAccount, nonce: uint64)
    ensures Pack(NewUserOperation(la, nonce)).Some?
  {
    Pow16();
    PackCorrect(NewUserOperation(la, nonce));
  }

  // ----- the provider

  datatype TxResult =
    | Batch(ops: seq<PackedUserOperation>)
    | NoContract
    | NoAccount
    | SignerFailed(at: nat)

  /** `p` is the operation with this nonce, apart from its signature. */
  ghost predicate IsOp(p: PackedUserOperation, la: LightAccount, nonce: uint64) {
    Some(p.(signature := [])) == Pack(NewUserOperation(la, nonce))
  }

  /** `packed` are the operations of the stream from position `from` on. */
  ghost predicate Piece(packed: seq<PackedUserOperation>, la: LightAccount, start: uint64, from: nat) {
    forall k :: 0 <= k < |packed| ==> IsOp(packed[k], la, Add64(start, from + k))
  }

  lemma PieceAppend(a: seq<PackedUserOperation>, b: seq<PackedUserOperation>, la: LightAccount, start: uint64,
                    from: nat)
    requires Piece(a, la, start, from) && Piece(b, la, start, from + |a|)
    ensures Piece(a + b, la, start, from)
  {
    forall k | 0 <= k < |a + b| ensures IsOp((a + b)[k], la, Add64(start, from + k)) {
      if k >= |a| {
        assert IsOp(b[k - |a|], la, Add64(start, from + |a| + (k - |a|)));
      }
    }
  }

  /** So a piece is numbered without gaps, and only an operation with nonce zero carries deployment code. */
  lemma PieceNumbers(packed: seq<PackedUserOperation>, la: LightAccount, start: uint64, from: nat, k: nat)
    requires Piece(packed, la, start, from) && k < |packed|
    ensures packed[k].nonce == start + from + k <==> start + from + k < TWO_63
    ensures packed[k].initCode != [] <==> !la.deployed && packed[k].nonce == 0
    ensures packed[k].initCode != [] ==> packed[k].initCode == InitCode(la.factory, la.createCall)
  {
    NoncesConsecutive(la, start, from + k);
    assert IsOp(packed[k], la, Add64(start, from + k));
  }

  /** Two operations of an account have different hashes, unless Keccak collides or they are 2^64 apart. */
  lemma HashesDistinct(d: Domain, p: PackedUserOperation, q: PackedUserOperation, la: LightAccount, start: uint64,
                       j: nat, k: nat)
    requires IsOp(p, la, Add64(start, j)) && IsOp(q, la, Add64(start, k)) && j <= k && (k - j) % TWO_64 != 0
    requires NoCollision(d.keccak, p, q, d.entryPoint, d.entryPoint, d.chainId, d.chainId)
    ensures GetUserOpHash(d.keccak, p, d.entryPoint, d.chainId) != GetUserOpHash(d.keccak, q, d.entryPoint, d.chainId)
  {
    if GetUserOpHash(d.keccak, p, d.entryPoint, d.chainId) == GetUserOpHash(d.keccak, q, d.entryPoint, d.chainId) {
      HashBinds(d.keccak, p, q, d.entryPoint, d.entryPoint, d.chainId, d.chainId);
      NonceRange(la, start, j);
      NonceRange(la, start, k);
      AgreeNearby(p.nonce, q.nonce);
      NoncesDistinct(la, start, j, k);
      assert false;
    }
  }

  /** Issued nonces are signed 64-bit numbers, far from wrapping in a word. */
  lemma NonceRange(la: LightAccount, start: uint64, k: nat)
    ensures -TWO_63 <= Nth(la, start, k).nonce < TWO_63 && TWO_64 < BE.Pow(32)
  {
    Pow16();
    BE.PowGrows(16, 32);
  }

  /** What the provider puts into every operation, besides its nonce and deployment code. */
  ghost predicate ProviderFields(p: PackedUserOperation, la: LightAccount) {
    && p.sender == la.address && p.callData == la.execute
    && UnpackPair(p.accountGasLimits) == (75000, 22000) && p.preVerificationGas == 21000
    && UnpackPair(p.gasFees) == (0, 0) && p.paymasterAndData == []
  }

  ghost predicate AllHaveFields(packed: seq<PackedUserOperation>, la: LightAccount) {
    forall k :: 0 <= k < |packed| ==> ProviderFields(packed[k], la)
  }

  lemma FieldsOf(p: PackedUserOperation, la: LightAccount, nonce: uint64)
    requires IsOp(p, la, nonce)
    ensures ProviderFields(p, la) && p.nonce == ToInt(nonce)
  {
    PackCorrect(NewUserOperation(la, nonce));
    PackKeeps(NewUserOperation(la, nonce));
  }

  lemma PieceFields(packed: seq<PackedUserOperation>, la: LightAccount, start: uint64, from: nat)
    requires Piece(packed, la, start, from)
    ensures AllHaveFields(packed, la)
  {
    forall k | 0 <= k < |packed| ensures ProviderFields(packed[k], la) {
      FieldsOf(packed[k], la, Add64(start, from + k));
    }
  }

  lemma PieceExtend(a: seq<PackedUserOperation>, p: PackedUserOperation, la: LightAccount, start: uint64, from: nat)
    requires Piece(a, la, start, from) && IsOp(p, la, Add64(start, from + |a|))
    ensures Piece(a + [p], la, start, from)
  {
  }

  /** A signer fails or returns 65 bytes. */
  ghost predicate Signer(sign: Bytes -> Option<Bytes>) { forall m :: sign(m).Some? ==> |sign(m).value| == 65 }

  /** The operation carries the signature of its own hash. */
  ghost predicate SignedBy(d: Domain, sign: Bytes -> Option<Bytes>, p: PackedUserOperation)
    requires Signer(sign)
  {
    var signature := sign(SignedText(GetUserOpHash(d.keccak, p, d.entryPoint, d.chainId)));
    signature.Some? && p.signature == Attached(signature.value)
  }

  ghost predicate AllSignedBy(d: Domain, sign: Bytes -> Option<Bytes>, ops: seq<PackedUserOperation>)
    requires Signer(sign)
  {
    forall k :: 0 <= k < |ops| ==> SignedBy(d, sign, ops[k])
  }

  lemma AllSignedAppend(d: Domain, sign: Bytes -> Option<Bytes>, ops: seq<PackedUserOperation>, p: PackedUserOperation)
    requires Signer(sign) && AllSignedBy(d, sign, ops) && SignedBy(d, sign, p)
    ensures AllSignedBy(d, sign, ops + [p])
  {
  }

  /** What the signature is bound to, besides the operation. */
  datatype Domain = Domain(keccak: Bytes -> Word, entryPoint: Address, chainId: int)

  /** Every account's next nonce is the one it started with, advanced by the operations it has used up. */
  ghost predicate Counted(nonces: map<int, uint64>, starts: map<int, uint64>, taken: map<int, nat>) {
    && nonces.Keys == starts.Keys == taken.Keys
    && forall i :: i in nonces ==> nonces[i] == Add64(starts[i], taken[i])
  }

  lemma CountedUpdate(nonces: map<int, uint64>, starts: map<int, uint64>, taken: map<int, nat>, i: int, n: nat)
    requires Counted(nonces, starts, taken) && i in nonces
    ensures Counted(nonces[i := Add64(starts[i], n)], starts, taken[i := n])
    ensures nonces[i := Add64(starts[i], n)].Keys == nonces.Keys
  {
  }

  /** Nonces used up by a batch: one more than its operations if the signer failed on the next one. */
  function Used(ops: seq<PackedUserOperation>): nat { if |ops| < OPS_PER_TX then |ops| + 1 else |ops| }

  class Provider {
    const domain: Domain
    const contract: Address

    var lightAccounts: map<int, LightAccount>
    var nonces: map<int, uint64>
    ghost var starts: map<int, uint64>
    ghost var taken: map<int, nat>  // how many operations of its stream each account has used up

    ghost predicate Valid()
      reads this
    {
      lightAccounts.Keys == nonces.Keys && Counted(nonces, starts, taken)
    }

    constructor (domain: Domain, contract: Address)
      ensures Valid() && lightAccounts == map[] && this.contract == contract && this.domain == domain
    {
      this.domain, this.contract := domain, contract;
      lightAccounts, nonces, starts, taken := map[], map[], map[], map[];
    }

    /** `GenerateInitialTx`: registers the account and the nonce fetched for it. */
    method SetUp(i: int, la: LightAccount, nonce: uint64)
      requires Valid()
      modifies this
      ensures Valid()
      ensures lightAccounts == old(lightAccounts)[i := la] && nonces == old(nonces)[i := nonce]
      ensures starts == old(starts)[i := nonce] && taken == old(taken)[i := 0]
    {
      lightAccounts, nonces := lightAccounts[i := la], nonces[i := nonce];
      starts, taken := starts[i := nonce], taken[i := 0];
    }

    /** One operation: take the nonce, advance the counter, then sign. */
    method IssueOne(i: int, la: LightAccount, sign: Bytes -> Option<Bytes>) returns (r: Option<PackedUserOperation>)
      requires i in nonces && Signer(sign)
      modifies this`nonces
      ensures nonces == old(nonces)[i := Add64(old(nonces[i]), 1)]
      ensures r.Some? ==> IsOp(r.value, la, old(nonces[i]))
      ensures r.Some? ==> SignedBy(domain, sign, r.value)
    {
      var op := NewUserOperation(la, nonces[i]);
      Packable(la, nonces[i]);
      nonces := nonces[i := Add64(nonces[i], 1)];
      var signed := SignUserOperation(domain.keccak, sign, op, domain.entryPoint, domain.chainId);
      r := if signed.Signed? then Some(signed.op) else None;
    }

    /** One operation more in the batch; it stays out when the signer fails. */
    method IssueNext(i: int, la: LightAccount, sign: Bytes -> Option<Bytes>, ops: seq<PackedUserOperation>,
                     ghost start: uint64, ghost from: nat)
      returns (more: seq<PackedUserOperation>)
      requires i in nonces && nonces[i] == Add64(start, from + |ops|) && Signer(sign)
      requires Piece(ops, la, start, from) && AllSignedBy(domain, sign, ops)
      modifies this`nonces
      ensures nonces == old(nonces)[i := Add64(start, from + |ops| + 1)]
      ensures |ops| <= |more| <= |ops| + 1 && Piece(more, la, start, from) && AllSignedBy(domain, sign, more)
    {
      Add64Step(start, from + |ops|);
      var op := IssueOne(i, la, sign);
      if op.None? {
        return ops;
      }
      PieceExtend(ops, op.value, la, start, from);
      AllSignedAppend(domain, sign, ops, op.value);
      more := ops + [op.value];
    }

    /** The loop over one batch; `ops` is shorter than a batch when the signer has failed. */
    method IssueBatch(i: int, la: LightAccount, sign: Bytes -> Option<Bytes>, ghost start: uint64, ghost from: nat)
      returns (ops: seq<PackedUserOperation>)
      requires i in nonces && nonces[i] == Add64(start, from) && Signer(sign)
      modifies this`nonces
      ensures |ops| <= OPS_PER_TX && Piece(ops, la, start, from) && AllSignedBy(domain, sign, ops)
      ensures AllHaveFields(ops, la)
      ensures nonces == old(nonces)[i := Add64(start, from + Used(ops))]
    {
      ops := [];
      while |ops| < OPS_PER_TX
        invariant |ops| <= OPS_PER_TX && Piece(ops, la, start, from) && AllSignedBy(domain, sign, ops)
        invariant nonces == old(nonces)[i := Add64(start, from + |ops|)]
      {
        var more := IssueNext(i, la, sign, ops, start, from);
        if |more| == |ops| {
          break;
        }
        ops := more;
      }
      PieceFields(ops, la, start, from);
    }

    /**
     One batch: the next fifty operations of the account's stream, each signed.  All other accounts are left alone.
     A failing signer loses the batch and the nonces it has taken.
     */
    method GenerateTx(i: int, sign: Bytes -> Option<Bytes>) returns (r: TxResult)
      requires Valid() && Signer(sign)
      modifies this`nonces, this`taken
      ensures Valid()
      ensures r.NoContract? <==> contract == NO_ADDRESS
      ensures r.NoAccount? <==> contract != NO_ADDRESS && i !in lightAccounts
      ensures r.NoContract? || r.NoAccount? ==> nonces == old(nonces) && taken == old(taken)
      ensures r.Batch? ==> |r.ops| == 50 && AllSignedBy(domain, sign, r.ops)
      ensures r.Batch? ==> i in lightAccounts && AllHaveFields(r.ops, lightAccounts[i])
      ensures r.Batch? ==>
                && i in old(taken) && taken == old(taken)[i := old(taken[i]) + OPS_PER_TX]
                && Piece(r.ops, lightAccounts[i], starts[i], old(taken[i]))
      ensures r.SignerFailed? ==>
                r.at < OPS_PER_TX && i in old(taken) && taken == old(taken)[i := old(taken[i]) + r.at + 1]
    {
      if contract == NO_ADDRESS {
        return NoContract;
      }
      if i !in lightAccounts {
        return NoAccount;
      }
      var ops := IssueBatch(i, lightAccounts[i], sign, starts[i], taken[i]);
      ghost var used := taken[i] + Used(ops);
      assert lightAccounts.Keys == nonces.Keys && Counted(nonces, starts, taken[i := used]) by {
        CountedUpdate(old(nonces), starts, taken, i, used);
      }
      taken := taken[i := used];
      r := if |ops| < OPS_PER_TX then SignerFailed(|ops|) else Batch(ops);
    }
  }

  // ----- any interleaving of calls

  datatype Call = Call(account: int, sign: Bytes -> Option<Bytes>)

  /** All operations returned for account i, in the order of the calls. */
  function IssuedFor(i: int, calls: seq<Call>, batches: seq<seq<PackedUserOperation>>): seq<PackedUserOperation>
    requires |batches| <= |calls|
  {
    if batches == [] then [] else
      var n := |batches| - 1;
      IssuedFor(i, calls, batches[..n]) + if calls[n].account == i then batches[n] else []
  }

  /** The operations issued for account i are the next piece of its stream, up to what it has used up. */
  ghost predicate Continues(i: int, calls: seq<Call>, batches: seq<seq<PackedUserOperation>>,
                            la: LightAccount, start: uint64, before: nat, after: nat)
    requires |batches| <= |calls|
  {
    var issued := IssuedFor(i, calls, batches);
    Piece(issued, la, start, before) && after == before + |issued|
  }

  lemma ContinuesStep(i: int, calls: seq<Call>, batches: seq<seq<PackedUserOperation>>, batch: seq<PackedUserOperation>,
                      la: LightAccount, start: uint64, before: nat, after: nat)
    requires |batches| < |calls| && Continues(i, calls, batches, la, start, before, after)
    requires calls[|batches|].account == i ==> Piece(batch, la, start, after)
    ensures Continues(i, calls, batches + [batch], la, start, before,
                      if calls[|batches|].account == i then after + |batch| else after)
  {
    assert (batches + [batch])[..|batches|] == batches;
    if calls[|batches|].account == i {
      PieceAppend(IssuedFor(i, calls, batches), batch, la, start, before);
    }
  }

  /** The same for every account. */
  ghost predicate AllContinue(calls: seq<Call>, batches: seq<seq<PackedUserOperation>>,
                              accounts: map<int, LightAccount>,
                              starts: map<int, uint64>, before: map<int, nat>, after: map<int, nat>)
    requires |batches| <= |calls|
  {
    && accounts.Keys == starts.Keys == before.Keys == after.Keys
    && forall i :: i in after ==> Continues(i, calls, batches, accounts[i], starts[i], before[i], after[i])
  }

  lemma AllContinueStep(calls: seq<Call>, batches: seq<seq<PackedUserOperation>>, batch: seq<PackedUserOperation>,
                        accounts: map<int, LightAccount>, starts: map<int, uint64>,
                        before: map<int, nat>, after: map<int, nat>)
    requires |batches| < |calls| && AllContinue(calls, batches, accounts, starts, before, after)
    requires var i := calls[|batches|].account; i in after && Piece(batch, accounts[i], starts[i], after[i])
    ensures var i := calls[|batches|].account;
            AllContinue(calls, batches + [batch], accounts, starts, before, after[i := after[i] + |batch|])
  {
    forall i | i in after
      ensures Continues(i, calls, batches + [batch], accounts[i], starts[i], before[i],
                        if calls[|batches|].account == i then after[i] + |batch| else after[i])
    {
      ContinuesStep(i, calls, batches, batch, accounts[i], starts[i], before[i], after[i]);
    }
  }

  ghost predicate RunSigned(d: Domain, calls: seq<Call>, batches: seq<seq<PackedUserOperation>>)
    requires |batches| <= |calls| && forall c :: c in calls ==> Signer(c.sign)
  {
    forall k :: 0 <= k < |batches| ==> AllSignedBy(d, calls[k].sign, batches[k])
  }

  lemma RunSignedStep(d: Domain, calls: seq<Call>, batches: seq<seq<PackedUserOperation>>,
                      batch: seq<PackedUserOperation>)
    requires |batches| < |calls| && forall c :: c in calls ==> Signer(c.sign)
    requires RunSigned(d, calls, batches) && AllSignedBy(d, calls[|batches|].sign, batch)
    ensures RunSigned(d, calls, batches + [batch])
  {
  }

  /**
   Calls in any order and for any accounts.  An error ends the program, so the run stops at the first one; `error` is
   None when there was none.
   */
  method GenerateRun(p: Provider, calls: seq<Call>)
    returns (batches: seq<seq<PackedUserOperation>>, error: Option<TxResult>, ghost used: map<int, nat>)
    requires p.Valid() && forall c :: c in calls ==> Signer(c.sign)
    modifies p`nonces, p`taken
    ensures p.Valid()
    ensures |batches| <= |calls| && (error.None? <==> |batches| == |calls|) && (error.None? ==> used == p.taken)
    ensures RunSigned(p.domain, calls, batches)
    ensures AllContinue(calls, batches, p.lightAccounts, p.starts, old(p.taken), used)
  {
    batches, error, used := [], None, p.taken;
    while |batches| < |calls|
      invariant p.Valid() && |batches| <= |calls| && used == p.taken && RunSigned(p.domain, calls, batches)
      invariant AllContinue(calls, batches, p.lightAccounts, p.starts, old(p.taken), used)
    {
      var call := calls[|batches|];
      var r := p.GenerateTx(call.account, call.sign);
      if !r.Batch? {
        return batches, Some(r), used;
      }
      AllContinueStep(calls, batches, r.ops, p.lightAccounts, p.starts, old(p.taken), used);
      RunSignedStep(p.domain, calls, batches, r.ops);
      batches, used := batches + [r.ops], p.taken;
    }
  }
}
