/** Proof of work (noknowledge/server/security.py): leading zero bits as a threshold on a number. */
module Hashcash {
  import opened Radix

  type Byte = b: nat | b < 256

  /** `int.bit_length` of a byte. */
  function BitLength(b: nat): nat
    decreases b
  {
    if b == 0 then 0 else 1 + BitLength(b / 2)
  }

  function LeadingZeroBits(digest: seq<Byte>): nat {
    if digest == [] then 0
    else if digest[0] == 0 then 8 + LeadingZeroBits(digest[1..])
    else if BitLength(digest[0]) <= 8 then 8 - BitLength(digest[0]) else 0
  }

  method CountLeadingZeroBits(digest: seq<Byte>) returns (count: nat)
    ensures count == LeadingZeroBits(digest)
  {
    count := 0;
    var i := 0;
    while i < |digest|
      invariant i <= |digest|
      invariant count + LeadingZeroBits(digest[i..]) == LeadingZeroBits(digest)
    {
      var byte := digest[i];
      assert digest[i..][1..] == digest[i + 1..];
      if byte == 0 {
        count := count + 8;
        i := i + 1;
        continue;
      }
      BitLengthOfByte(byte);
      count := count + 8 - BitLength(byte);
      return;
    }
  }

  /** A byte has at most `k` bits exactly when it is below `2^k`. */
  lemma BitLengthOfByte(b: Byte)
    ensures BitLength(b) <= 8
    ensures forall k: nat :: k <= 8 ==> (BitLength(b) <= k <==> b < Pow(2, k))
  {
    BitLengthBound(b, 8);
    forall k: nat | k <= 8
      ensures BitLength(b) <= k <==> b < Pow(2, k)
    {
      BitLengthBound(b, k);
    }
    assert Pow(2, 8) == 256 by {
      assert Pow(2, 4) == 16;
      PowAdds(2, 4, 4);
    }
  }

  lemma {:induction false} BitLengthBound(b: nat, k: nat)
    ensures BitLength(b) <= k <==> b < Pow(2, k)
    decreases k
  {
    if k > 0 {
      BitLengthBound(b / 2, k - 1);
    }
    PowPositive(2, k);
  }

  // -- the digest as a number ------------------------------------------------------

  /** The digest read as one big-endian number, first byte first. */
  function Number(digest: seq<Byte>): nat {
    if digest == [] then 0 else digest[0] * Pow(256, |digest| - 1) + Number(digest[1..])
  }

  lemma {:induction false} NumberBelow(digest: seq<Byte>)
    ensures Number(digest) < Pow(256, |digest|)
  {
    if digest != [] {
      NumberBelow(digest[1..]);
      var p := Pow(256, |digest| - 1);
      var b: nat := digest[0];
      MulMono(b + 1, 256, p);
      assert (b + 1) * p == b * p + p;
    }
  }

  lemma {:induction false} BitsOfBytes(n: nat)
    ensures Pow(256, n) == Pow(2, 8 * n)
  {
    if n > 0 {
      BitsOfBytes(n - 1);
      assert Pow(2, 8) == 256 by {
        assert Pow(2, 4) == 16;
        PowAdds(2, 4, 4);
      }
      PowAdds(2, 8, 8 * (n - 1));
    }
  }

  /** At least `bits` leading zero bits: exactly the numbers below `2^(length - bits)`. */
  lemma {:induction false} ThresholdOfZeroBits(digest: seq<Byte>, bits: nat)
    requires bits <= 8 * |digest|
    ensures LeadingZeroBits(digest) >= bits <==> Number(digest) < Pow(2, 8 * |digest| - bits)
    decreases digest
  {
    if digest != [] {
      var b, rest, n := digest[0], digest[1..], |digest| - 1;
      var p := Pow(256, n);
      NumberBelow(rest);
      BitsOfBytes(n);
      PowPositive(256, n);
      if bits <= 8 {
        BitLengthOfByte(b);
        PowAdds(2, 8 - bits, 8 * n);
        HeadThreshold(b, Number(rest), p, Pow(2, 8 - bits));
        if b == 0 {
          PowPositive(2, 8 - bits);
        }
      } else if b == 0 {
        ThresholdOfZeroBits(rest, bits - 8);
      } else {
        BitLengthOfByte(b);
        MulAtLeast(b, p);
        PowMono(8 * n - (bits - 8), 8 * n);
      }
    }
  }

  /** A leading byte decides a comparison with a multiple of its weight. */
  lemma HeadThreshold(b: nat, low: nat, p: nat, bound: nat)
    requires low < p
    ensures b * p + low < bound * p <==> b < bound
  {
    if b < bound {
      MulMono(b + 1, bound, p);
      assert (b + 1) * p == b * p + p;
    } else {
      MulMono(bound, b, p);
    }
  }

  lemma {:induction false} PowMono(m: nat, n: nat)
    requires m <= n
    ensures Pow(2, m) <= Pow(2, n)
  {
    if m < n {
      PowMono(m, n - 1);
    }
  }

  lemma {:induction false} ZeroBitsBound(digest: seq<Byte>)
    ensures LeadingZeroBits(digest) <= 8 * |digest|
  {
    if digest != [] {
      ZeroBitsBound(digest[1..]);
    }
  }

  // -- stamps ------------------------------------------------------------------------

  /** A stamp as it parses: absent or without a colon, with a timestamp that is no number, or complete. */
  datatype Stamp = NoStamp | BadTimestamp | Stamp(timestamp: int, nonce: string)

  /** `digest` is the SHA-256 of the stamp's text. */
  function Verify(stamp: Stamp, bits: int, now: int, maxAge: int, digest: seq<Byte>): bool {
    if bits <= 0 then true
    else if !stamp.Stamp? then false
    else if stamp.timestamp > now + 60 || now - stamp.timestamp > maxAge then false
    else LeadingZeroBits(digest) >= bits
  }

  /**
   With work required, a stamp is accepted exactly when it is complete, in date, and its digest
   is below the threshold; beyond the digest's own length nothing is accepted. Without, nothing is refused.
   */
  lemma AcceptedExactlyAtThreshold(stamp: Stamp, bits: int, now: int, maxAge: int, digest: seq<Byte>)
    ensures Verify(stamp, bits, now, maxAge, digest) <==>
              || bits <= 0
              || (stamp.Stamp? && stamp.timestamp - 60 <= now <= stamp.timestamp + maxAge
              && bits <= 8 * |digest| && Number(digest) < Pow(2, 8 * |digest| - bits))
  {
    ZeroBitsBound(digest);
    if 0 < bits <= 8 * |digest| {
      ThresholdOfZeroBits(digest, bits);
    }
  }
}
