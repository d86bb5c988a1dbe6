/** Big-endian byte strings: minimal encodings, fixed-width padding and their inverse. */
module BigEndian {
  import opened Words

  /** 256 to the power k. */
  function Pow(k: nat): (p: nat)
    ensures p > 0
  {
    if k == 0 then 1 else 256 * Pow(k - 1)
  }

  lemma {:induction false} PowGrows(j: nat, k: nat)
    requires j <= k
    ensures Pow(j) <= Pow(k)
    decreases k
  {
    if j < k {
      PowGrows(j, k - 1);
    }
  }

  /** `big.Int.Bytes` of a non-negative number: no leading zero. */
  function Encode(n: nat): Bytes { if n == 0 then [] else Encode(n / 256) + [n % 256] }

  function Decode(bs: Bytes): nat { if bs == [] then 0 else 256 * Decode(bs[..|bs| - 1]) + bs[|bs| - 1] }

  function Zeros(k: nat): Bytes { seq(k, _ => 0) }

  /** `LeftPadBytes`: longer input is returned unchanged. */
  function LeftPad(bs: Bytes, k: nat): Bytes { if k <= |bs| then bs else Zeros(k - |bs|) + bs }

  lemma {:induction false} DecodeEncode(n: nat)
    ensures Decode(Encode(n)) == n
  {
    if n > 0 {
      DecodeEncode(n / 256);
      assert Encode(n)[..|Encode(n)| - 1] == Encode(n / 256);
    }
  }

  /** A number needs at most k bytes exactly when it is below 256^k. */
  lemma {:induction false} EncodeLength(n: nat, k: nat)
    ensures |Encode(n)| <= k <==> n < Pow(k)
  {
    if n > 0 && k > 0 {
      EncodeLength(n / 256, k - 1);
    }
  }

  lemma {:induction false} DecodeBound(bs: Bytes)
    ensures Decode(bs) < Pow(|bs|)
  {
    if bs != [] {
      DecodeBound(bs[..|bs| - 1]);
    }
  }

  lemma {:induction false} DecodePadded(z: nat, bs: Bytes)
    ensures Decode(Zeros(z) + bs) == Decode(bs)
  {
    var all := Zeros(z) + bs;
    if bs != [] {
      DecodePadded(z, bs[..|bs| - 1]);
      assert all[..|all| - 1] == Zeros(z) + bs[..|bs| - 1];
    } else if z > 0 {
      DecodePadded(z - 1, []);
      assert all[..|all| - 1] == Zeros(z - 1) + [];
    }
  }

  /** A fixed-width field: exact width exactly when the number fits, and then it reads back. */
  lemma Field(n: nat, k: nat)
    ensures |LeftPad(Encode(n), k)| >= k
    ensures |LeftPad(Encode(n), k)| == k <==> n < Pow(k)
    ensures Decode(LeftPad(Encode(n), k)) == n
  {
    EncodeLength(n, k);
    DecodeEncode(n);
    if |Encode(n)| < k {
      DecodePadded(k - |Encode(n)|, Encode(n));
    }
  }

  lemma {:induction false} EncodePow(k: nat)
    ensures Encode(Pow(k)) == [1] + Zeros(k)
  {
    if k == 0 {
      assert Encode(1) == Encode(0) + [1];
    } else {
      EncodePow(k - 1);
      assert Pow(k) / 256 == Pow(k - 1) && Pow(k) % 256 == 0;
      assert Zeros(k) == Zeros(k - 1) + [0];
    }
  }
}
