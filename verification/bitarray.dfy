/** The bit array that records which validators voted. Its elements are signed 32-bit numbers;
a number is written here as its 32 bits, bit 31 being the sign. */
module BitArrays {
  type Word = bits: seq<bool> | |bits| == 32 witness seq(32, _ => false)

  const ZERO: Word := seq(32, _ => false)

  datatype BitArray = BitArray(length: nat, elems: seq<Word>)
  {
    predicate WellFormed() {
      |elems| == (length + 31) / 32
    }

    /** Bit `i` as stored. */
    predicate Stored(i: nat) {
      i / 32 < |elems| && elems[i / 32][i % 32]
    }

    /** Bit `i` as read: the masked element must be greater than zero, which fails for the sign
        bit, since masking with it leaves a negative number. */
    predicate GetIndex(i: nat) {
      i / 32 < |elems| && elems[i / 32][i % 32] && i % 32 != 31
    }

    function SetIndex(i: nat, v: bool): (b: BitArray)
      requires WellFormed()
      ensures b.WellFormed() && b.length == length
      ensures forall j: nat :: b.Stored(j) == if j == i && i < length then v else Stored(j)
    {
      if i >= length then this
      else
        var b := this.(elems := elems[i / 32 := elems[i / 32][i % 32 := v]]);
        assert forall j: nat :: j / 32 == i / 32 && j % 32 == i % 32 ==> j == i;
        b
    }
  }

  /** Bit arrays with one element for every 32 bits, as the constructor makes them. */
  type Bits = b: BitArray | b.WellFormed() witness BitArray(0, [])

  function Empty(length: nat): (b: Bits)
    ensures b.length == length
    ensures forall j: nat :: !b.Stored(j)
  {
    BitArray(length, seq((length + 31) / 32, _ => ZERO))
  }
}
