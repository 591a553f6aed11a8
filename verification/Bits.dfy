/** Bit operations on naturals, least significant bit first, shared by the
    drivers that pack flags into bytes and registers. */
module Bits {

  /** (w >> i) & 1 */
  predicate Bit(w: nat, i: nat)
    decreases i
  {
    if i == 0 then w % 2 == 1 else Bit(w / 2, i - 1)
  }

  /** w | 1 << i when on, w & ~(1 << i) when not. */
  function SetBit(w: nat, i: nat, on: bool): nat
    decreases i
  {
    if i == 0 then w - w % 2 + (if on then 1 else 0)
    else w % 2 + 2 * SetBit(w / 2, i - 1, on)
  }

  /** x & y */
  function And(x: nat, y: nat): nat
    decreases x
  {
    if x == 0 then 0
    else (if x % 2 == 1 && y % 2 == 1 then 1 else 0) + 2 * And(x / 2, y / 2)
  }

  /** The number whose bits, least significant first, are bs. */
  function Pack(bs: seq<bool>): nat {
    if bs == [] then 0 else (if bs[0] then 1 else 0) + 2 * Pack(bs[1..])
  }

  function Pow2(n: nat): (p: nat)
    ensures p > 0
  {
    if n == 0 then 1 else 2 * Pow2(n - 1)
  }

  lemma {:induction false} SetBitBits(w: nat, i: nat, on: bool, j: nat)
    ensures Bit(SetBit(w, i, on), j) == if i == j then on else Bit(w, j)
    decreases i
  {
    if i == 0 {
      if j > 0 {
        assert SetBit(w, i, on) / 2 == w / 2;
      }
    } else {
      assert SetBit(w, i, on) / 2 == SetBit(w / 2, i - 1, on);
      if j > 0 {
        SetBitBits(w / 2, i - 1, on, j - 1);
      }
    }
  }

  lemma {:induction false} SetBitBound(w: nat, i: nat, on: bool, n: nat)
    requires i < n && w < Pow2(n)
    ensures SetBit(w, i, on) < Pow2(n)
    decreases i
  {
    if i > 0 {
      SetBitBound(w / 2, i - 1, on, n - 1);
    }
  }

  lemma {:induction false} PackBits(bs: seq<bool>, j: nat)
    ensures Bit(Pack(bs), j) == (j < |bs| && bs[j])
    decreases |bs|, j
  {
    if bs == [] {
      ZeroBits(j);
    } else {
      assert Pack(bs) / 2 == Pack(bs[1..]);
      if j > 0 {
        PackBits(bs[1..], j - 1);
      }
    }
  }

  lemma {:induction false} ZeroBits(j: nat)
    ensures !Bit(0, j)
    decreases j
  {
    if j > 0 {
      ZeroBits(j - 1);
    }
  }

  lemma {:induction false} PackBound(bs: seq<bool>)
    ensures Pack(bs) < Pow2(|bs|)
  {
    if bs != [] {
      PackBound(bs[1..]);
    }
  }

  /** Two n-bit numbers with the same bits are the same number. */
  lemma {:induction false} SameBits(x: nat, y: nat, n: nat)
    requires x < Pow2(n) && y < Pow2(n)
    requires forall j: nat | j < n :: Bit(x, j) == Bit(y, j)
    ensures x == y
    decreases n
  {
    if n > 0 {
      assert Bit(x, 0) == Bit(y, 0);
      forall j: nat | j < n - 1
        ensures Bit(x / 2, j) == Bit(y / 2, j)
      {
        assert Bit(x, j + 1) == Bit(y, j + 1);
      }
      SameBits(x / 2, y / 2, n - 1);
    }
  }

  predicate Both(x: nat, y: nat, j: nat) { Bit(x, j) && Bit(y, j) }

  /** The conjunction is zero exactly when no bit is set in both. */
  lemma {:induction false} AndIsZero(x: nat, y: nat)
    ensures And(x, y) == 0 <==> forall j: nat :: !Both(x, y, j)
    decreases x
  {
    if x == 0 {
      forall j: nat
        ensures !Both(x, y, j)
      {
        ZeroBits(j);
      }
    } else {
      AndIsZero(x / 2, y / 2);
      if And(x, y) == 0 {
        forall j: nat
          ensures !Both(x, y, j)
        {
          if j > 0 { assert !Both(x / 2, y / 2, j - 1); }
        }
      } else if And(x / 2, y / 2) != 0 {
        var j: nat :| Both(x / 2, y / 2, j);
        assert Both(x, y, j + 1);
      } else {
        assert Both(x, y, 0);
      }
    }
  }
}
