/** Bloom filters of 2048 bits, as in section 4.3.1 of the Ethereum Yellow Paper (Berlin version),
and the generator that turns the blooms of a section of blocks into one row for every bit. */
module BloomBits {
  import C = Compression

  type Byte = C.Byte
  type Bytes = C.Bytes
  type Buffer = C.Bytes

  const SECTION_SIZE: nat := 4096
  const BIT_LENGTH: nat := 2048
  const BYTE_LENGTH: nat := 256
  const ROW_LENGTH: nat := 512
  const CONFIRMS: nat := 256

  datatype Option<+T> = None | Some(value: T)

  datatype Result<+T> = Ok(value: T) | Err

  type Bloom = b: Bytes | |b| == BYTE_LENGTH witness C.Zeros(BYTE_LENGTH)

  // ---- Bits of a bloom ----

  /** The bloom bit of this index: bits are counted upwards in every byte. */
  predicate BitAt(bloom: Bloom, index: nat)
    requires index < BIT_LENGTH
  {
    bloom[index / 8][7 - index % 8]
  }

  /** The low eleven bits of three pairs of bytes of an item's hash. */
  type Locs = l: (nat, nat, nat) | l.0 < BIT_LENGTH && l.1 < BIT_LENGTH && l.2 < BIT_LENGTH witness (0, 0, 0)

  type Hashing = Buffer -> Locs

  /** How the machine sets a bit in a bloom: the lowest number is in the last byte. */
  function SetLoc(bloom: Bloom, loc: nat): Bloom
    requires loc < BIT_LENGTH
  {
    var byt := BYTE_LENGTH - loc / 8 - 1;
    bloom[byt := bloom[byt][7 - loc % 8 := true]]
  }

  /** How the filter finds that bit again. */
  function BloomIndex(loc: nat): (index: nat)
    requires loc < BIT_LENGTH
    ensures index < BIT_LENGTH
  {
    (BYTE_LENGTH - loc / 8 - 1) * 8 + loc % 8
  }

  lemma BloomIndexParts(loc: nat)
    requires loc < BIT_LENGTH
    ensures BloomIndex(loc) / 8 == BYTE_LENGTH - loc / 8 - 1 && BloomIndex(loc) % 8 == loc % 8
  {
  }

  lemma BloomIndexInjective(a: nat, b: nat)
    requires a < BIT_LENGTH && b < BIT_LENGTH && BloomIndex(a) == BloomIndex(b)
    ensures a == b
  {
    BloomIndexParts(a);
    BloomIndexParts(b);
    assert a == 8 * (a / 8) + a % 8 && b == 8 * (b / 8) + b % 8;
  }

  /** The machine's way of setting a bit sets just the one that the filter looks at. */
  lemma SetLocAt(bloom: Bloom, loc: nat, i: nat)
    requires loc < BIT_LENGTH && i < BIT_LENGTH
    ensures BitAt(SetLoc(bloom, loc), i) == (i == BloomIndex(loc) || BitAt(bloom, i))
  {
    BloomIndexParts(loc);
    assert i == 8 * (i / 8) + i % 8 && BloomIndex(loc) == 8 * (BloomIndex(loc) / 8) + BloomIndex(loc) % 8;
  }

  function Add(bloom: Bloom, locs: Locs): Bloom {
    SetLoc(SetLoc(SetLoc(bloom, locs.0), locs.1), locs.2)
  }

  /** All three bits of the item are in the bloom. */
  predicate Has(bloom: Bloom, locs: Locs) {
    BitAt(bloom, BloomIndex(locs.0)) && BitAt(bloom, BloomIndex(locs.1)) && BitAt(bloom, BloomIndex(locs.2))
  }

  predicate Within(bloom: Bloom, bloom': Bloom) {
    forall i :: 0 <= i < BIT_LENGTH && BitAt(bloom, i) ==> BitAt(bloom', i)
  }

  lemma AddAt(bloom: Bloom, locs: Locs, i: nat)
    requires i < BIT_LENGTH
    ensures BitAt(Add(bloom, locs), i) ==
      (i == BloomIndex(locs.0) || i == BloomIndex(locs.1) || i == BloomIndex(locs.2) || BitAt(bloom, i))
  {
    hide SetLoc, BitAt, BloomIndex;
    SetLocAt(bloom, locs.0, i);
    SetLocAt(SetLoc(bloom, locs.0), locs.1, i);
    SetLocAt(SetLoc(SetLoc(bloom, locs.0), locs.1), locs.2, i);
  }

  lemma AddHas(bloom: Bloom, locs: Locs)
    ensures Has(Add(bloom, locs), locs) && Within(bloom, Add(bloom, locs))
  {
    hide Add, BitAt, BloomIndex;
    forall i: nat | i < BIT_LENGTH ensures BitAt(Add(bloom, locs), i) ==
        (i == BloomIndex(locs.0) || i == BloomIndex(locs.1) || i == BloomIndex(locs.2) || BitAt(bloom, i))
    {
      AddAt(bloom, locs, i);
    }
  }

  // ---- Rows ----

  /** Bit `r` of every bloom of a section, the first bloom in the highest bit of the first byte. */
  function Row(blooms: seq<Bloom>, r: nat): (row: Bytes)
    requires |blooms| == SECTION_SIZE && r < BIT_LENGTH
    ensures |row| == ROW_LENGTH
  {
    seq(ROW_LENGTH, c requires 0 <= c < ROW_LENGTH => RowByte(blooms, r, c))
  }

  function RowByte(blooms: seq<Bloom>, r: nat, c: nat): Byte
    requires |blooms| == SECTION_SIZE && r < BIT_LENGTH && c < ROW_LENGTH
  {
    seq(8, j requires 0 <= j < 8 => BitAt(blooms[8 * c + j], r))
  }

  /** A row says of the `k`th block of the section whether its bloom has the bit. */
  lemma RowBit(blooms: seq<Bloom>, r: nat, k: nat)
    requires |blooms| == SECTION_SIZE && r < BIT_LENGTH && k < SECTION_SIZE
    ensures C.Bit(Row(blooms, r), k) == BitAt(blooms[k], r)
  {
    assert 8 * (k / 8) + k % 8 == k;
    assert Row(blooms, r)[k / 8] == RowByte(blooms, r, k / 8);
  }

  /** The rows of a section determine its blooms. */
  lemma RowsDetermine(blooms: seq<Bloom>, blooms': seq<Bloom>)
    requires |blooms| == |blooms'| == SECTION_SIZE
    requires forall r: nat :: r < BIT_LENGTH ==> Row(blooms, r) == Row(blooms', r)
    ensures blooms == blooms'
  {
    hide Row, BitAt, C.Bit;
    forall k: nat | k < SECTION_SIZE ensures blooms[k] == blooms'[k] {
      forall r: nat | r < BIT_LENGTH ensures BitAt(blooms[k], r) == BitAt(blooms'[k], r) {
        RowBit(blooms, r, k);
        RowBit(blooms', r, k);
        assert Row(blooms, r) == Row(blooms', r);
      }
      BitsDetermine(blooms[k], blooms'[k]);
    }
  }

  lemma BitsDetermine(bloom: Bloom, bloom': Bloom)
    requires forall r: nat :: r < BIT_LENGTH ==> BitAt(bloom, r) == BitAt(bloom', r)
    ensures bloom == bloom'
  {
    forall i: nat | i < BYTE_LENGTH ensures bloom[i] == bloom'[i] {
      forall j: nat | j < 8 ensures bloom[i][j] == bloom'[i][j] {
        var r := 8 * i + 7 - j;
        assert r / 8 == i && 7 - r % 8 == j;
        assert BitAt(bloom, r) == BitAt(bloom', r);
      }
    }
  }

  class BloomBitsGenerator {
    var nextSec: nat
    const blooms: array2<Byte>
    ghost var added: seq<Bloom>

    /** The matrix holds the blooms added so far as its columns, and zeros after them. */
    ghost predicate Valid()
      reads this, blooms
    {
      && blooms.Length0 == BIT_LENGTH && blooms.Length1 == ROW_LENGTH
      && nextSec == |added| <= SECTION_SIZE
      && forall r, c, j :: 0 <= r < BIT_LENGTH && 0 <= c < ROW_LENGTH && 0 <= j < 8 ==>
        blooms[r, c][j] == Column(added, r, 8 * c + j)
    }

    constructor ()
      ensures Valid() && added == [] && fresh(blooms)
    {
      nextSec := 0;
      blooms := new Byte[BIT_LENGTH, ROW_LENGTH]((_, _) => C.ZERO);
      added := [];
    }

    /** Four rows from `base` on: half of the eight that a byte of the bloom goes to. */
    method AddHalf(base: nat, half: seq<bool>, col: nat, bit: nat)
      requires |half| == 4 && base + 4 <= blooms.Length0 && col < blooms.Length1 && bit < 8
      modifies blooms
      ensures forall r, c :: 0 <= r < blooms.Length0 && 0 <= c < blooms.Length1 ==>
        blooms[r, c] == Updated(old(blooms[r, c]), c == col && base <= r < base + 4, bit, HalfAt(half, r - base))
    {
      hide Or;
      blooms[base + 3, col] := Or(blooms[base + 3, col], bit, half[0]);
      blooms[base + 2, col] := Or(blooms[base + 2, col], bit, half[1]);
      blooms[base + 1, col] := Or(blooms[base + 1, col], bit, half[2]);
      blooms[base, col] := Or(blooms[base, col], bit, half[3]);
    }

    method AddByte(byt: nat, bloom: Bloom, col: nat, bit: nat)
      requires byt < BYTE_LENGTH && col < ROW_LENGTH && bit < 8
      requires blooms.Length0 == BIT_LENGTH && blooms.Length1 == ROW_LENGTH
      modifies blooms
      ensures forall r, c :: 0 <= r < BIT_LENGTH && 0 <= c < ROW_LENGTH ==>
        blooms[r, c] == Updated(old(blooms[r, c]), c == col && r / 8 == byt, bit, BitAt(bloom, r))
    {
      hide BitAt, Or;
      AddHalf(8 * byt + 4, bloom[byt][..4], col, bit);
      AddHalf(8 * byt, bloom[byt][4..], col, bit);
      forall r, c | 0 <= r < BIT_LENGTH && 0 <= c < ROW_LENGTH
        ensures blooms[r, c] == Updated(old(blooms[r, c]), c == col && r / 8 == byt, bit, BitAt(bloom, r))
      {
        RowUpdated(old(blooms[r, c]), bloom, byt, r, c == col, bit);
      }
    }

    /** Adds a bloom as the next column; it fails once the section is full, or out of order. */
    method AddBloom(index: int, bloom: Bloom) returns (ok: bool)
      requires Valid()
      modifies this, blooms
      ensures Valid()
      ensures ok == (old(nextSec) < SECTION_SIZE && index == old(nextSec))
      ensures added == if ok then old(added) + [bloom] else old(added)
    {
      if nextSec >= SECTION_SIZE {
        return false;
      }
      if nextSec != index {
        return false;
      }
      var byteIndex, bitIndex := nextSec / 8, nextSec % 8;
      ghost var was := added;
      for byt := 0 to BYTE_LENGTH
        invariant nextSec == |was| && added == was
        invariant forall r, c, j :: 0 <= r < BIT_LENGTH && 0 <= c < ROW_LENGTH && 0 <= j < 8 ==>
          blooms[r, c][j] == (Column(was, r, 8 * c + j) || (r / 8 < byt && 8 * c + j == nextSec && BitAt(bloom, r)))
      {
        if bloom[byt] != C.ZERO {
          AddByte(byt, bloom, byteIndex, bitIndex);
        }
      }
      nextSec := nextSec + 1;
      added := added + [bloom];
      ok := true;
    }

    /** The finished row of a bit. */
    method Bitset(index: nat) returns (r: Result<Bytes>)
      requires Valid()
      ensures r == if nextSec == SECTION_SIZE && index < BIT_LENGTH then Ok(Row(added, index)) else Err
    {
      if nextSec != SECTION_SIZE {
        return Err;
      }
      if index >= BIT_LENGTH {
        return Err;
      }
      var row: Bytes := seq(ROW_LENGTH,
        c requires 0 <= c < blooms.Length1 && index < blooms.Length0 reads blooms => blooms[index, c]);
      forall c: nat | c < ROW_LENGTH ensures row[c] == Row(added, index)[c] {
        assert forall j :: 0 <= j < 8 ==> blooms[index, c][j] == Column(added, index, 8 * c + j);
        assert row[c] == RowByte(added, index, c);
      }
      assert row == Row(added, index);
      r := Ok(row);
    }
  }

  ghost predicate Column(added: seq<Bloom>, r: nat, k: nat)
    requires r < BIT_LENGTH
  {
    k < |added| && BitAt(added[k], r)
  }

  predicate HalfAt(half: seq<bool>, i: int)
    requires |half| == 4
  {
    0 <= i < 4 && half[3 - i]
  }

  function Or(byte: Byte, bit: nat, b: bool): Byte
    requires bit < 8
  {
    byte[bit := byte[bit] || b]
  }

  lemma RowUpdated(was: Byte, bloom: Bloom, byt: nat, r: nat, here: bool, bit: nat)
    requires byt < BYTE_LENGTH && r < BIT_LENGTH && bit < 8
    ensures Updated(was, here && r / 8 == byt, bit, BitAt(bloom, r)) ==
      if here && 0 <= r - 8 * byt < 8 then Or(was, bit, bloom[byt][7 - (r - 8 * byt)]) else was
  {
    assert r == 8 * (r / 8) + r % 8;
  }

  function Updated(byte: Byte, here: bool, bit: nat, b: bool): Byte
    requires bit < 8
  {
    if here then Or(byte, bit, b) else byte
  }
}
