/** The LSB-first bit reader of `compress.py`. */
module BitReader {
  import opened Bits

  /** The unread bits of a reader holding `count` buffered bits in front of `tail`. */
  ghost function RestOf(bits: nat, count: nat, tail: seq<byte>): seq<bool> {
    ToBits(bits, count) + BytesToBits(tail)
  }

  /** Or-ing a value in above the buffered bits appends its bits to them. */
  lemma {:induction false} BufferAbove(bits: nat, count: nat, v: nat, n: nat)
    requires bits < Pow2(count) && v < Pow2(n)
    ensures BitOr(bits, Shl(v, count)) < Pow2(count + n)
    ensures ToBits(BitOr(bits, Shl(v, count)), count + n) == ToBits(bits, count) + ToBits(v, n)
  {
    BitOrShifted(bits, count, v);
    ShlBound(bits, count, v, n);
    ToBitsConcat(bits, count, v, n);
  }

  /** Buffering one more byte changes no unread bit. */
  lemma {:induction false} PullByte(bits: nat, count: nat, tail: seq<byte>)
    requires tail != [] && bits < Pow2(count)
    ensures BitOr(bits, Shl(tail[0], count)) < Pow2(count + 8)
    ensures RestOf(BitOr(bits, Shl(tail[0], count)), count + 8, tail[1..]) == RestOf(bits, count, tail)
  {
    hide ToBits, BytesToBits, Pow2, Shl, BitOr;
    BytesHead(tail);
    ByteFits(tail[0]);
    BufferAbove(bits, count, tail[0], 8);
  }

  lemma {:induction false} BytesHead(bs: seq<byte>)
    requires bs != []
    ensures BytesToBits(bs) == ToBits(bs[0], 8) + BytesToBits(bs[1..])
  {
    hide ToBits;
  }

  lemma {:induction false} ByteFits(b: byte)
    ensures (b as nat) < Pow2(8)
  {
  }

  /** The low `n` buffered bits are the next `n` bits; shifting them out leaves the rest. */
  lemma {:induction false} TakeBits(bits: nat, count: nat, tail: seq<byte>, n: nat)
    requires n <= count && bits < Pow2(count)
    ensures n <= |RestOf(bits, count, tail)|
    ensures LowBits(bits, n) == FromBits(RestOf(bits, count, tail)[..n])
    ensures Shr(bits, n) < Pow2(count - n)
    ensures RestOf(Shr(bits, n), count - n, tail) == RestOf(bits, count, tail)[n..]
  {
    hide ToBits, BytesToBits, Pow2, LowBits, Shr, FromBits;
    ToBitsSplit(bits, n, count - n);
    ShrBound(bits, n, count - n);
    var low := LowBits(bits, n);
    LowBitsBound(bits, n);
    LowBitsFits(low, n);
    FromToBits(low, n);
    assert RestOf(bits, count, tail)[..n] == ToBits(low, n);
  }

  class Reader {
    const data: seq<byte>
    var pos: nat
    var bits: nat
    var bitsCount: nat

    ghost predicate Valid()
      reads this
    {
      pos <= |data| && bits < Pow2(bitsCount)
    }

    /** Every bit still to be read, in stream order. */
    ghost function Rest(): seq<bool>
      reads this
      requires Valid()
    {
      RestOf(bits, bitsCount, data[pos..])
    }

    constructor (data: seq<byte>)
      ensures Valid() && this.data == data && pos == 0 && bitsCount == 0
      ensures Rest() == BytesToBits(data)
    {
      this.data := data;
      pos, bits, bitsCount := 0, 0, 0;
      new;
      assert data[0..] == data;
    }

    function BytesLeft(): nat
      reads this
      requires Valid()
    {
      |data| - pos
    }

    function BitsLeft(): (n: nat)
      reads this
      requires Valid()
      ensures n == |Rest()|
    {
      BytesLeft() * 8 + bitsCount
    }

    /** Byte-aligned read; `None` where the source raises: bits are pending, or too few bytes are left. */
    method Read(n: nat) returns (r: Option<seq<byte>>)
      requires Valid()
      modifies this
      ensures Valid()
      ensures r.Some? <==> old(bitsCount) == 0 && n <= old(BytesLeft())
      ensures r.Some? ==> r.value == data[old(pos)..old(pos) + n] && pos == old(pos) + n && bitsCount == 0
      ensures r.None? ==> unchanged(this)
    {
      if bitsCount != 0 || pos + n > |data| {
        return None;
      }
      r := Some(data[pos..pos + n]);
      pos := pos + n;
    }

    /** Looks at the next `n` bits without consuming them. */
    method PeekBits(n: nat) returns (r: Option<nat>)
      requires Valid()
      modifies this
      ensures Valid() && Rest() == old(Rest())
      ensures r.Some? <==> n <= |Rest()|
      ensures r.Some? ==> n <= bitsCount && r.value == FromBits(Rest()[..n]) && r.value == LowBits(bits, n)
    {
      while bitsCount < n
        invariant Valid() && Rest() == old(Rest())
      {
        if pos >= |data| {
          assert BytesToBits(data[pos..]) == [];
          return None;
        }
        var b := data[pos];
        PullByte(bits, bitsCount, data[pos..]);
        assert data[pos..][1..] == data[pos + 1..];
        pos := pos + 1;
        bits := BitOr(bits, Shl(b, bitsCount));
        bitsCount := bitsCount + 8;
      }
      r := Some(LowBits(bits, n));
      TakeBits(bits, bitsCount, data[pos..], n);
    }

    /** Consumes the next `n` bits and returns them as a number. */
    method ReadBits(n: nat) returns (r: Option<nat>)
      requires Valid()
      modifies this
      ensures Valid()
      ensures r.Some? <==> n <= |old(Rest())|
      ensures r.Some? ==> r.value == FromBits(old(Rest())[..n]) && Rest() == old(Rest())[n..]
      ensures r.None? ==> Rest() == old(Rest())
    {
      r := PeekBits(n);
      if r.Some? {
        TakeBits(bits, bitsCount, data[pos..], n);
        bits := Shr(bits, n);
        bitsCount := bitsCount - n;
      }
    }
  }
}
