/** The genesis file under construction, and the generator loops that fill and save it. */
module GenesisFile {

  datatype Balance = Balance(address: string, amount: nat)
  datatype GenTx = GenTx(staker: string, amount: nat)

  /** 100K, 10K and 1M INJ in units of 10^-18. */
  const STAKER_BALANCE := 100_000_000_000_000_000_000_000
  const BONDED_BALANCE := 10_000_000_000_000_000_000_000
  const ACCOUNT_BALANCE := 1_000_000_000_000_000_000_000_000

  function Sum(bs: seq<Balance>): nat { if bs == [] then 0 else Sum(bs[..|bs| - 1]) + bs[|bs| - 1].amount }

  function Addresses(bs: seq<Balance>): seq<string> { seq(|bs|, k requires 0 <= k < |bs| => bs[k].address) }

  /** The balances are those of the accounts, in some order. */
  ghost predicate Owned(accounts: seq<string>, bs: seq<Balance>) {
    |accounts| == |bs| && multiset(accounts) == multiset(Addresses(bs))
  }

  lemma Added(accounts: seq<string>, bs: seq<Balance>, address: string, amount: nat)
    requires Owned(accounts, bs)
    ensures Owned(accounts + [address], bs + [Balance(address, amount)])
    ensures Sum(bs + [Balance(address, amount)]) == Sum(bs) + amount
  {
    AddressesAppend(bs, [Balance(address, amount)]);
    assert (bs + [Balance(address, amount)])[..|bs|] == bs;
  }

  lemma Reordered(accounts: seq<string>, a: seq<Balance>, b: seq<Balance>)
    requires Owned(accounts, a) && multiset(a) == multiset(b)
    ensures Owned(accounts, b) && Sum(a) == Sum(b)
  {
    SamePermutation(a, b);
    assert |multiset(a)| == |a| && |multiset(b)| == |b|;
  }

  /** Every address and amount is in the one bank denomination.  The template starts with an empty bank. */
  class Genesis {
    var accounts: seq<string>
    var balances: seq<Balance>
    var supply: nat
    var genTxs: seq<GenTx>
    var finalized: bool

    /** The supply is the sum of the balances. */
    ghost predicate Valid()
      reads this
    {
      supply == Sum(balances) && Owned(accounts, balances)
    }

    constructor ()
      ensures Valid() && balances == [] && genTxs == [] && !finalized
    {
      accounts, balances, supply, genTxs, finalized := [], [], 0, [], false;
    }

    /** The result says whether the operation panicked because the file has been saved already. */
    method AddAccount(address: string, amount: nat) returns (panicked: bool)
      requires Valid()
      modifies this
      ensures Valid() && panicked == old(finalized) && finalized == old(finalized) && genTxs == old(genTxs)
      ensures balances == if panicked then old(balances) else old(balances) + [Balance(address, amount)]
    {
      if finalized {
        return true;
      }
      Added(accounts, balances, address, amount);
      accounts := accounts + [address];
      balances := balances + [Balance(address, amount)];
      supply := supply + amount;
      panicked := false;
    }

    method AddValidator(staker: string, amount: nat) returns (panicked: bool)
      requires Valid()
      modifies this
      ensures Valid() && panicked == old(finalized) && finalized == old(finalized) && balances == old(balances)
      ensures genTxs == if panicked then old(genTxs) else old(genTxs) + [GenTx(staker, amount)]
    {
      if finalized {
        return true;
      }
      genTxs := genTxs + [GenTx(staker, amount)];
      panicked := false;
    }

    /** Finalises the file.  `sort` puts the balances in the order they are written in. */
    method Save(sort: seq<Balance> -> seq<Balance>)
      requires Valid() && Permutes(sort)
      modifies this
      ensures Valid() && finalized && supply == old(supply) && accounts == old(accounts) && genTxs == old(genTxs)
      ensures multiset(balances) == multiset(old(balances))
    {
      finalized := true;
      Reordered(accounts, balances, sort(balances));
      balances := sort(balances);
    }
  }

  ghost predicate Permutes(sort: seq<Balance> -> seq<Balance>) { forall bs :: multiset(sort(bs)) == multiset(bs) }

  lemma AddressesAppend(a: seq<Balance>, b: seq<Balance>)
    ensures Addresses(a + b) == Addresses(a) + Addresses(b)
  {
  }

  lemma SumWithout(a: seq<Balance>, x: Balance, b: seq<Balance>)
    ensures Sum(a + [x] + b) == Sum(a + b) + x.amount
  {
    SumAppend(a + [x], b);
    SumAppend(a, [x]);
    SumAppend(a, b);
  }

  lemma AddressesWithout(a: seq<Balance>, x: Balance, b: seq<Balance>)
    ensures multiset(Addresses(a + [x] + b)) == multiset(Addresses(a + b)) + multiset{x.address}
  {
    AddressesAppend(a + [x], b);
    AddressesAppend(a, [x]);
    AddressesAppend(a, b);
  }

  /** Taking one entry out. */
  lemma WithoutEntry(bs: seq<Balance>, x: Balance) returns (rest: seq<Balance>)
    requires x in multiset(bs)
    ensures |rest| == |bs| - 1 && multiset(bs) == multiset(rest) + multiset{x}
    ensures Sum(bs) == Sum(rest) + x.amount
    ensures multiset(Addresses(bs)) == multiset(Addresses(rest)) + multiset{x.address}
  {
    var k :| 0 <= k < |bs| && bs[k] == x;
    var a, b := bs[..k], bs[k + 1..];
    rest := a + b;
    assert bs == a + [x] + b;
    SumWithout(a, x, b);
    AddressesWithout(a, x, b);
  }

  lemma Cancel(a: multiset<Balance>, b: multiset<Balance>, x: Balance)
    requires a + multiset{x} == b + multiset{x}
    ensures a == b
  {
    forall y ensures a[y] == b[y] {
      assert (a + multiset{x})[y] == (b + multiset{x})[y];
    }
  }

  /** Reordering the balances changes neither their sum nor whose they are. */
  lemma {:induction false} SamePermutation(a: seq<Balance>, b: seq<Balance>)
    requires multiset(a) == multiset(b)
    ensures Sum(a) == Sum(b) && multiset(Addresses(a)) == multiset(Addresses(b))
    decreases |a|
  {
    if a == [] {
      assert |multiset(b)| == 0;
    } else {
      var a' := WithoutEntry(a, a[0]);
      var b' := WithoutEntry(b, a[0]);
      Cancel(multiset(a'), multiset(b'), a[0]);
      SamePermutation(a', b');
    }
  }

  // ----- what the loops leave behind

  function StakerBalances(staker: nat -> string, v: nat): seq<Balance> {
    if v == 0 then [] else StakerBalances(staker, v - 1) + [Balance(staker(v - 1), STAKER_BALANCE)]
  }

  function StakerTxs(staker: nat -> string, v: nat): seq<GenTx> {
    if v == 0 then [] else StakerTxs(staker, v - 1) + [GenTx(staker(v - 1), BONDED_BALANCE)]
  }

  function InstanceBalances(account: (nat, nat) -> string, i: nat, n: nat): seq<Balance> {
    if n == 0 then [] else InstanceBalances(account, i, n - 1) + [Balance(account(i, n - 1), ACCOUNT_BALANCE)]
  }

  function AccountBalances(account: (nat, nat) -> string, instances: nat, n: nat): seq<Balance> {
    if instances == 0 then []
    else AccountBalances(account, instances - 1, n) + InstanceBalances(account, instances - 1, n)
  }

  lemma {:induction false} SumAppend(a: seq<Balance>, b: seq<Balance>)
    ensures Sum(a + b) == Sum(a) + Sum(b)
  {
    if b == [] {
      assert a + b == a;
    } else {
      SumAppend(a, b[..|b| - 1]);
      assert (a + b)[..|a + b| - 1] == a + b[..|b| - 1];
    }
  }

  ghost predicate AllWorth(bs: seq<Balance>, each: nat) { forall k :: 0 <= k < |bs| ==> bs[k].amount == each }

  lemma {:induction false} SumOfEqual(bs: seq<Balance>, each: nat)
    requires AllWorth(bs, each)
    ensures Sum(bs) == |bs| * each
  {
    if bs != [] {
      SumOfEqual(bs[..|bs| - 1], each);
      Successor(|bs| - 1, each);
    }
  }

  lemma Successor(i: nat, n: nat)
    ensures (i + 1) * n == i * n + n
  {
  }

  lemma {:induction false} StakerShape(staker: nat -> string, v: nat)
    ensures |StakerBalances(staker, v)| == |StakerTxs(staker, v)| == v
    ensures AllWorth(StakerBalances(staker, v), STAKER_BALANCE)
  {
    if v > 0 {
      StakerShape(staker, v - 1);
    }
  }

  lemma {:induction false} InstanceShape(account: (nat, nat) -> string, i: nat, n: nat)
    ensures |InstanceBalances(account, i, n)| == n && AllWorth(InstanceBalances(account, i, n), ACCOUNT_BALANCE)
  {
    if n > 0 {
      InstanceShape(account, i, n - 1);
    }
  }

  lemma {:induction false} AccountShape(account: (nat, nat) -> string, instances: nat, n: nat)
    ensures |AccountBalances(account, instances, n)| == instances * n
    ensures AllWorth(AccountBalances(account, instances, n), ACCOUNT_BALANCE)
  {
    if instances > 0 {
      var i := instances - 1;
      AccountShape(account, i, n);
      InstanceShape(account, i, n);
      Successor(i, n);
    }
  }

  /** Every staker has its own balance and its own genesis transaction: 100K and 10K units of 10^18. */
  lemma {:induction false} StakerAt(staker: nat -> string, v: nat, i: nat)
    requires i < v
    ensures |StakerBalances(staker, v)| == |StakerTxs(staker, v)| == v
    ensures StakerBalances(staker, v)[i] == Balance(staker(i), 100_000_000_000_000_000_000_000)
    ensures StakerTxs(staker, v)[i] == GenTx(staker(i), 10_000_000_000_000_000_000_000)
  {
    StakerShape(staker, v);
    StakerShape(staker, v - 1);
    if i < v - 1 {
      StakerAt(staker, v - 1, i);
    }
  }

  lemma {:induction false} InstanceAt(account: (nat, nat) -> string, i: nat, n: nat, j: nat)
    requires j < n
    ensures |InstanceBalances(account, i, n)| == n
    ensures InstanceBalances(account, i, n)[j] == Balance(account(i, j), 1_000_000_000_000_000_000_000_000)
  {
    InstanceShape(account, i, n);
    InstanceShape(account, i, n - 1);
    if j < n - 1 {
      InstanceAt(account, i, n - 1, j);
    }
  }

  /** Every account of every instance has its own balance: 1M units of 10^18. */
  lemma {:induction false} AccountIn(account: (nat, nat) -> string, instances: nat, n: nat, i: nat, j: nat)
    requires i < instances && j < n
    ensures Balance(account(i, j), 1_000_000_000_000_000_000_000_000) in AccountBalances(account, instances, n)
  {
    var before, added := AccountBalances(account, instances - 1, n), InstanceBalances(account, instances - 1, n);
    if i < instances - 1 {
      AccountIn(account, instances - 1, n, i, j);
    } else {
      InstanceAt(account, i, n, j);
    }
    InEither(before, added, Balance(account(i, j), 1_000_000_000_000_000_000_000_000));
  }

  lemma InEither(a: seq<Balance>, b: seq<Balance>, x: Balance)
    requires x in a || x in b
    ensures x in a + b
  {
  }

  /** What a finished file holds for everybody. */
  ghost predicate Endowed(bs: seq<Balance>, staker: nat -> string, account: (nat, nat) -> string,
                          v: nat, instances: nat, n: nat)
  {
    && (forall i: nat :: i < v ==> Balance(staker(i), 100_000_000_000_000_000_000_000) in bs)
    && (forall i: nat, j: nat :: i < instances && j < n ==>
          Balance(account(i, j), 1_000_000_000_000_000_000_000_000) in bs)
  }

  lemma AllEndowed(bs: seq<Balance>, staker: nat -> string, account: (nat, nat) -> string,
                   v: nat, instances: nat, n: nat)
    requires multiset(bs) == multiset(StakerBalances(staker, v) + AccountBalances(account, instances, n))
    ensures Endowed(bs, staker, account, v, instances, n)
  {
    var stakers, accounts := StakerBalances(staker, v), AccountBalances(account, instances, n);
    forall i: nat | i < v ensures Balance(staker(i), 100_000_000_000_000_000_000_000) in bs {
      StakerAt(staker, v, i);
      StillThere(bs, stakers, accounts, stakers[i]);
    }
    forall i: nat, j: nat | i < instances && j < n
      ensures Balance(account(i, j), 1_000_000_000_000_000_000_000_000) in bs
    {
      AccountIn(account, instances, n, i, j);
      StillThere(bs, stakers, accounts, Balance(account(i, j), 1_000_000_000_000_000_000_000_000));
    }
  }

  lemma StillThere(bs: seq<Balance>, a: seq<Balance>, b: seq<Balance>, x: Balance)
    requires multiset(bs) == multiset(a + b) && (x in a || x in b)
    ensures x in bs
  {
    assert x in a + b;
    assert x in multiset(a + b);
  }

  /** The genesis transactions, in order. */
  ghost predicate Bonded(txs: seq<GenTx>, staker: nat -> string, v: nat) {
    |txs| == v && forall i: nat :: i < v ==> txs[i] == GenTx(staker(i), 10_000_000_000_000_000_000_000)
  }

  lemma AllBonded(staker: nat -> string, v: nat)
    ensures Bonded(StakerTxs(staker, v), staker, v)
  {
    StakerShape(staker, v);
    forall i: nat | i < v ensures StakerTxs(staker, v)[i] == GenTx(staker(i), 10_000_000_000_000_000_000_000) {
      StakerAt(staker, v, i);
    }
  }

  /** Supply and number of accounts of a finished file, in closed form. */
  lemma GenesisTotals(staker: nat -> string, account: (nat, nat) -> string, v: nat, instances: nat, n: nat)
    ensures var all := StakerBalances(staker, v) + AccountBalances(account, instances, n);
            Sum(all) == v * STAKER_BALANCE + instances * n * ACCOUNT_BALANCE && |all| == v + instances * n
  {
    StakerShape(staker, v);
    SumOfEqual(StakerBalances(staker, v), STAKER_BALANCE);
    AccountShape(account, instances, n);
    SumOfEqual(AccountBalances(account, instances, n), ACCOUNT_BALANCE);
    SumAppend(StakerBalances(staker, v), AccountBalances(account, instances, n));
  }

  // ----- the generator

  datatype Outcome = Generated | BadArguments | Finalized

  /** The accounts of one instance. */
  method AddInstance(g: Genesis, account: (nat, nat) -> string, i: nat, n: nat) returns (panicked: bool)
    requires g.Valid() && !g.finalized
    modifies g
    ensures !panicked && g.Valid() && !g.finalized && g.genTxs == old(g.genTxs)
    ensures g.balances == old(g.balances) + InstanceBalances(account, i, n)
  {
    panicked := false;
    for j := 0 to n
      invariant !panicked && g.Valid() && !g.finalized && g.genTxs == old(g.genTxs)
      invariant g.balances == old(g.balances) + InstanceBalances(account, i, j)
    {
      panicked := g.AddAccount(account(i, j), ACCOUNT_BALANCE);
    }
  }

  method AddStakers(g: Genesis, staker: nat -> string, v: nat) returns (panicked: bool)
    requires g.Valid() && !g.finalized && g.balances == [] && g.genTxs == []
    modifies g
    ensures !panicked && g.Valid() && !g.finalized
    ensures g.balances == StakerBalances(staker, v) && g.genTxs == StakerTxs(staker, v)
  {
    panicked := false;
    for i := 0 to v
      invariant !panicked && g.Valid() && !g.finalized
      invariant g.balances == StakerBalances(staker, i) && g.genTxs == StakerTxs(staker, i)
    {
      var first := g.AddAccount(staker(i), STAKER_BALANCE);
      var second := g.AddValidator(staker(i), BONDED_BALANCE);
      panicked := first || second;
    }
  }

  method AddInstances(g: Genesis, account: (nat, nat) -> string, instances: nat, n: nat) returns (panicked: bool)
    requires g.Valid() && !g.finalized
    modifies g
    ensures !panicked && g.Valid() && !g.finalized && g.genTxs == old(g.genTxs)
    ensures g.balances == old(g.balances) + AccountBalances(account, instances, n)
  {
    panicked := false;
    for i := 0 to instances
      invariant !panicked && g.Valid() && !g.finalized && g.genTxs == old(g.genTxs)
      invariant g.balances == old(g.balances) + AccountBalances(account, i, n)
    {
      panicked := AddInstance(g, account, i, n);
      Assoc(old(g.balances), AccountBalances(account, i, n), InstanceBalances(account, i, n));
    }
  }

  lemma Assoc(a: seq<Balance>, b: seq<Balance>, c: seq<Balance>)
    ensures (a + b) + c == a + (b + c)
  {
  }

  method SaveAll(g: Genesis, sort: seq<Balance> -> seq<Balance>, times: nat)
    requires g.Valid() && Permutes(sort)
    modifies g
    ensures g.Valid() && g.supply == old(g.supply) && g.accounts == old(g.accounts) && g.genTxs == old(g.genTxs)
    ensures multiset(g.balances) == multiset(old(g.balances))
    ensures g.finalized == (old(g.finalized) || times > 0)
  {
    for i := 0 to times
      invariant g.Valid() && g.supply == old(g.supply) && g.accounts == old(g.accounts) && g.genTxs == old(g.genTxs)
      invariant multiset(g.balances) == multiset(old(g.balances))
      invariant g.finalized == (old(g.finalized) || i > 0)
    {
      g.Save(sort);
    }
  }

  /**
   `GenerateConfigs` as far as the genesis file goes.  The keys are generated at random; here `staker` and `account`
   name their addresses.  The file is saved for every validator and every sentry node, and nothing is added afterwards.
   */
  method Generate(validators: int, sentries: int, instances: int, accounts: nat,
                  staker: nat -> string, account: (nat, nat) -> string, sort: seq<Balance> -> seq<Balance>)
    returns (outcome: Outcome, g: Genesis)
    requires Permutes(sort)
    ensures outcome == if instances <= 0 || validators <= 0 then BadArguments else Generated
    ensures outcome.Generated? ==>
              && g.Valid() && g.finalized
              && multiset(g.balances)
                 == multiset(StakerBalances(staker, validators) + AccountBalances(account, instances, accounts))
              && Endowed(g.balances, staker, account, validators, instances, accounts)
              && Bonded(g.genTxs, staker, validators)
              && g.supply == validators * 100_000_000_000_000_000_000_000
                             + instances * accounts * 1_000_000_000_000_000_000_000_000
              && |g.accounts| == |g.balances| == validators + instances * accounts
  {
    g := new Genesis();
    if instances <= 0 || validators <= 0 {
      return BadArguments, g;
    }
    var stuck := AddStakers(g, staker, validators);
    if !stuck {
      stuck := AddInstances(g, account, instances, accounts);
    }
    assert g.supply == Sum(g.balances) && |g.accounts| == |g.balances|;
    StakerShape(staker, validators);
    GenesisTotals(staker, account, validators, instances, accounts);
    SaveAll(g, sort, validators);
    if sentries > 0 {
      SaveAll(g, sort, sentries);
    }
    AllEndowed(g.balances, staker, account, validators, instances, accounts);
    AllBonded(staker, validators);
    outcome := if stuck then Finalized else Generated;
  }
}
