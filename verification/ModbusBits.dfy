/** Coils and discrete inputs on a Modbus wire: eight to a byte, least significant
    bit first, as section 6.1 and 6.2 of the MODBUS Application Protocol V1.1b3 say. */
module ModbusBits {
  import opened Bytes
  import opened Bits

  /** What a conforming server answers for these coils. */
  function Packed(bs: seq<bool>): (r: seq<byte>)
    ensures |r| == (|bs| + 7) / 8
  {
    if |bs| == 0 then []
    else if |bs| <= 8 then PackBound(bs); PowMonotone(|bs|, 8); [Pack(bs)]
    else PackBound(bs[..8]); [Pack(bs[..8])] + Packed(bs[8..])
  }

  lemma {:induction false} PowMonotone(m: nat, n: nat)
    requires m <= n
    ensures Pow2(m) <= Pow2(n)
    decreases n
  {
    if m < n { PowMonotone(m, n - 1); }
  }

  function Unpacked(body: seq<byte>, quantity: nat): seq<bool>
    requires quantity <= 8 * |body|
  {
    seq(quantity, i requires 0 <= i < quantity => Bit(body[i / 8] as int, i % 8))
  }

  /** The client reads back exactly what the server packed. */
  lemma {:induction false} UnpackInvertsPack(bs: seq<bool>)
    ensures Unpacked(Packed(bs), |bs|) == bs
  {
    forall i | 0 <= i < |bs|
      ensures Unpacked(Packed(bs), |bs|)[i] == bs[i]
    {
      PackedBit(bs, i);
    }
  }

  lemma {:induction false} PackedBit(bs: seq<bool>, i: nat)
    requires i < |bs|
    ensures Bit(Packed(bs)[i / 8] as int, i % 8) == bs[i]
    decreases |bs|
  {
    if |bs| <= 8 {
      PackBits(bs, i);
    } else if i < 8 {
      PackBits(bs[..8], i);
    } else {
      PackedBit(bs[8..], i - 8);
      assert i / 8 == (i - 8) / 8 + 1 && i % 8 == (i - 8) % 8;
    }
  }

  /** The loop both clients run over a response body. */
  method Unpack(body: seq<byte>, quantity: nat) returns (values: seq<bool>)
    requires quantity <= 8 * |body|
    ensures values == Unpacked(body, quantity)
  {
    values := [];
    for bit := 0 to quantity
      invariant |values| == bit && forall i :: 0 <= i < bit ==> values[i] == Bit(body[i / 8] as int, i % 8)
    {
      values := values + [Bit(body[bit / 8] as int, bit % 8)];
    }
  }
}
