/** The codec that suppresses zero bytes: a bit set says where the other bytes are, and is itself
encoded in the same way. A byte is written as its eight bits, the highest first. */
module Compression {
  type Byte = bits: seq<bool> | |bits| == 8 witness [false, false, false, false, false, false, false, false]
  type Bytes = seq<Byte>

  const ZERO: Byte := [false, false, false, false, false, false, false, false]

  predicate IsZero(b: Byte) {
    b == ZERO
  }

  datatype Option<+T> = None | Some(value: T)

  datatype Error = MissingData | UnreferencedData | ExceededTarget | ZeroContent

  datatype Result<+T> = Ok(value: T) | Err(error: Error)

  /** How many bytes hold a bit for each of `n`. */
  function Eighth(n: nat): nat {
    (n + 7) / 8
  }

  // ---- Encoding ----

  predicate Bit(mask: Bytes, i: nat)
    requires i / 8 < |mask|
  {
    mask[i / 8][i % 8]
  }

  predicate NonZeroAt(data: Bytes, i: nat) {
    i < |data| && !IsZero(data[i])
  }

  /** One bit for every byte, set when the byte is not zero. */
  function Mask(data: Bytes): (mask: Bytes)
    ensures |mask| == Eighth(|data|)
  {
    seq(Eighth(|data|), k requires 0 <= k => MaskByte(data, k))
  }

  lemma MaskBit(data: Bytes, i: nat)
    requires i / 8 < Eighth(|data|)
    ensures Bit(Mask(data), i) == NonZeroAt(data, i)
  {
    assert Mask(data)[i / 8] == MaskByte(data, i / 8) && 8 * (i / 8) + i % 8 == i;
  }

  function MaskByte(data: Bytes, k: nat): Byte {
    seq(8, j requires 0 <= j => NonZeroAt(data, 8 * k + j))
  }

  function NonZero(data: Bytes): (r: Bytes)
    ensures |r| <= |data|
  {
    if data == [] then []
    else NonZero(data[..|data| - 1]) + if !IsZero(data[|data| - 1]) then [data[|data| - 1]] else []
  }

  function Encode(data: Bytes): Option<Bytes>
    decreases |data|
  {
    if |data| == 0 then None
    else if |data| == 1 then if IsZero(data[0]) then None else Some(data)
    else if NonZero(data) == [] then None
    else
      match Encode(Mask(data))
      case None => None
      case Some(result) => Some(result + NonZero(data))
  }

  function Compress(data: Bytes): Bytes {
    var out := Encode(data);
    if out.Some? && |out.value| < |data| then out.value else data
  }

  // ---- Decoding ----

  function Zeros(n: nat): (r: Bytes)
    ensures |r| == n && forall i :: 0 <= i < n ==> IsZero(r[i])
  {
    seq(n, _ => ZERO)
  }

  /** The bytes of `data` from `start` on, put where the first `i` bits of the mask say. */
  function Fill(mask: Bytes, data: Bytes, target: nat, start: nat, i: nat): (r: Result<(Bytes, nat)>)
    requires i <= 8 * |mask|
    ensures r.Ok? ==> |r.value.0| == target
  {
    if i == 0 then Ok((Zeros(target), start))
    else
      match Fill(mask, data, target, start, i - 1)
      case Err(e) => Err(e)
      case Ok((out, ptr)) =>
        if !Bit(mask, i - 1) then Ok((out, ptr))
        else if ptr >= |data| then Err(MissingData)
        else if i - 1 >= target then Err(ExceededTarget)
        else if IsZero(data[ptr]) then Err(ZeroContent)
        else Ok((out[i - 1 := data[ptr]], ptr + 1))
  }

  function DecodePartial(data: Bytes, target: nat): (r: Result<(Bytes, nat)>)
    ensures r.Ok? ==> |r.value.0| == target
    decreases target
  {
    if target == 0 then Ok(([], 0))
    else if |data| == 0 then Ok((Zeros(target), 0))
    else if target == 1 then Ok(([data[0]], if !IsZero(data[0]) then 1 else 0))
    else
      match DecodePartial(data, Eighth(target))
      case Err(e) => Err(e)
      case Ok((mask, ptr)) => Fill(mask, data, target, ptr, 8 * |mask|)
  }

  function Decompress(data: Bytes, target: nat): Result<Bytes> {
    if |data| > target then Err(ExceededTarget)
    else if |data| == target then Ok(data)
    else
      match DecodePartial(data, target)
      case Err(e) => Err(e)
      case Ok((out, size)) => if size != |data| then Err(UnreferencedData) else Ok(out)
  }

  lemma DecompressLength(data: Bytes, target: nat)
    ensures Decompress(data, target).Ok? ==> |Decompress(data, target).value| == target
  {
  }

  // ---- Both ways ----

  lemma {:induction false} NonZeroPrefix(data: Bytes, i: nat)
    requires i <= |data|
    ensures |NonZero(data[..i])| <= |NonZero(data)| && NonZero(data)[..|NonZero(data[..i])|] == NonZero(data[..i])
    decreases |data|
  {
    hide IsZero;
    if i == |data| {
      assert data[..i] == data;
    } else {
      var rest := data[..|data| - 1];
      NonZeroPrefix(rest, i);
      assert rest[..i] == data[..i];
    }
  }

  lemma NonZeroNext(data: Bytes, i: nat)
    requires i < |data|
    ensures NonZero(data[..i + 1]) == NonZero(data[..i]) + if !IsZero(data[i]) then [data[i]] else []
  {
    hide IsZero;
    assert data[..i + 1][..i] == data[..i];
  }

  lemma FillNext(mask: Bytes, data: Bytes, out: Bytes, start: nat, ptr: nat, i: nat)
    requires i < 8 * |mask| && Fill(mask, data, |out|, start, i) == Ok((out, ptr))
    requires Bit(mask, i) ==> ptr < |data| && i < |out| && !IsZero(data[ptr])
    ensures Fill(mask, data, |out|, start, i + 1) ==
      if Bit(mask, i) then Ok((out[i := data[ptr]], ptr + 1)) else Ok((out, ptr))
  {
    hide IsZero, Bit, Zeros;
  }

  /** What filling in along the mask of `d` has built after `i` bits. */
  function Filled(d: Bytes, i: nat): (r: Bytes)
    ensures |r| == |d|
  {
    var k := if i < |d| then i else |d|;
    d[..k] + Zeros(|d| - k)
  }

  /** How many of the first `i` bytes of `d` are not zero. */
  function Taken(d: Bytes, i: nat): nat {
    |NonZero(d[..if i < |d| then i else |d|])|
  }

  /** Filling in along the mask of `d`, from the non-zero bytes of `d`, gives `d`. */
  lemma {:induction false} FillRestores(d: Bytes, head: Bytes, tail: Bytes, i: nat)
    requires i <= 8 * Eighth(|d|)
    ensures Fill(Mask(d), head + NonZero(d) + tail, |d|, |head|, i) == Ok((Filled(d, i), |head| + Taken(d, i)))
  {
    hide IsZero, NonZero, Mask, Fill, Filled, Taken, Bit;
    if i == 0 {
      FillStart(d, head, tail);
    } else {
      FillRestores(d, head, tail, i - 1);
      MaskBit(d, i - 1);
      FillStep(d, head, tail, i - 1);
      FillNext(Mask(d), head + NonZero(d) + tail, Filled(d, i - 1), |head|, |head| + Taken(d, i - 1), i - 1);
    }
  }

  lemma FillStart(d: Bytes, head: Bytes, tail: Bytes)
    ensures Fill(Mask(d), head + NonZero(d) + tail, |d|, |head|, 0) == Ok((Filled(d, 0), |head| + Taken(d, 0)))
  {
    hide IsZero, Mask;
    assert d[..0] == [] && d[..0] + Zeros(|d|) == Zeros(|d|);
  }

  lemma FillStep(d: Bytes, head: Bytes, tail: Bytes, i: nat)
    ensures var data, at := head + NonZero(d) + tail, |head| + Taken(d, i);
      if NonZeroAt(d, i) then
        at < |data| && data[at] == d[i] && Filled(d, i)[i := d[i]] == Filled(d, i + 1)
          && Taken(d, i + 1) == Taken(d, i) + 1
      else Filled(d, i + 1) == Filled(d, i) && Taken(d, i + 1) == Taken(d, i)
  {
    hide NonZero;
    if i < |d| {
      NonZeroNext(d, i);
      NonZeroPrefix(d, i + 1);
      if !IsZero(d[i]) {
        var k := |NonZero(d[..i])|;
        assert NonZero(d)[..k + 1][k] == d[i];
        assert (head + NonZero(d) + tail)[|head| + k] == NonZero(d)[k];
      }
    }
  }

  lemma {:induction false} EncodeNonEmpty(data: Bytes)
    ensures Encode(data).Some? ==> |Encode(data).value| > 0
    ensures Encode(data).Some? <==> NonZero(data) != []
    decreases |data|
  {
    hide IsZero;
    if |data| == 1 {
      assert data == data[..0] + [data[0]];
      assert NonZero(data[..0]) == [];
    } else if |data| > 1 && NonZero(data) != [] {
      EncodeNonEmpty(Mask(data));
      MaskNonZero(data);
    }
  }

  lemma {:induction false} SomeNonZero(data: Bytes)
    ensures NonZero(data) == [] <==> forall i :: 0 <= i < |data| ==> IsZero(data[i])
  {
    hide IsZero;
    if data != [] {
      SomeNonZero(data[..|data| - 1]);
    }
  }

  lemma ZeroBits(b: Byte)
    ensures IsZero(b) <==> forall j :: 0 <= j < 8 ==> !b[j]
  {
  }

  lemma MaskNonZero(data: Bytes)
    ensures NonZero(Mask(data)) == [] <==> NonZero(data) == []
  {
    hide IsZero, NonZero, Mask;
    SomeNonZero(data);
    SomeNonZero(Mask(data));
    if i :| 0 <= i < |data| && !IsZero(data[i]) {
      MaskBit(data, i);
      ZeroBits(Mask(data)[i / 8]);
    }
    if k :| 0 <= k < |Mask(data)| && !IsZero(Mask(data)[k]) {
      ZeroBits(Mask(data)[k]);
      var j :| 0 <= j < 8 && Mask(data)[k][j];
      assert (8 * k + j) / 8 == k && (8 * k + j) % 8 == j;
      MaskBit(data, 8 * k + j);
    }
  }

  /** Whatever follows it, an encoding decodes to what was encoded, and is used up exactly. */
  lemma {:induction false} EncodeDecodes(d: Bytes, tail: Bytes)
    requires Encode(d).Some?
    ensures DecodePartial(Encode(d).value + tail, |d|) == Ok((d, |Encode(d).value|))
    decreases |d|
  {
    hide IsZero, Fill, NonZero, Mask, Taken;
    var e := Encode(d).value;
    EncodeNonEmpty(d);
    if |d| == 1 {
      assert [(e + tail)[0]] == d;
    } else {
      var head := Encode(Mask(d)).value;
      assert e + tail == head + (NonZero(d) + tail) == head + NonZero(d) + tail;
      EncodeDecodes(Mask(d), NonZero(d) + tail);
      FillRestores(d, head, tail, 8 * Eighth(|d|));
      AllFilled(d);
    }
  }

  lemma AllFilled(d: Bytes)
    ensures Filled(d, 8 * Eighth(|d|)) == d && Taken(d, 8 * Eighth(|d|)) == |NonZero(d)|
  {
    hide NonZero;
    assert d[..|d|] == d && d + Zeros(0) == d;
  }

  /** Decompressing what was compressed gives it back, for every byte string. */
  lemma RoundTrip(d: Bytes)
    ensures Decompress(Compress(d), |d|) == Ok(d)
  {
    hide Encode, DecodePartial;
    if Encode(d).Some? && |Encode(d).value| < |d| {
      EncodeDecodes(d, []);
      assert Encode(d).value + [] == Encode(d).value;
    }
  }

  /** The first `i` bits of the mask are settled: non-zero bytes stand exactly where it has bits,
      and they are the bytes from `start` to `ptr`, in order. */
  ghost predicate Placed(mask: Bytes, data: Bytes, out: Bytes, start: nat, ptr: nat, i: nat)
    requires i <= 8 * |mask|
  {
    && start <= ptr <= |data|
    && (forall j: nat :: j < i ==> NonZeroAt(out, j) == Bit(mask, j))
    && (forall j: nat :: i <= j < |out| ==> !NonZeroAt(out, j))
    && NonZero(out[..if i < |out| then i else |out|]) == data[start..ptr]
  }

  lemma {:induction false} FillWas(mask: Bytes, data: Bytes, target: nat, start: nat, i: nat)
    requires i <= 8 * |mask| && start <= |data|
    requires Fill(mask, data, target, start, i).Ok?
    ensures var (out, ptr) := Fill(mask, data, target, start, i).value; Placed(mask, data, out, start, ptr, i)
  {
    hide Placed, Bit, IsZero, NonZero;
    if i == 0 {
      PlacedNone(mask, data, target, start);
    } else {
      FillWas(mask, data, target, start, i - 1);
      var (out, ptr) := Fill(mask, data, target, start, i - 1).value;
      PlacedNext(mask, data, out, start, ptr, i - 1);
    }
  }

  lemma PlacedNone(mask: Bytes, data: Bytes, target: nat, start: nat)
    requires start <= |data|
    ensures Placed(mask, data, Zeros(target), start, start, 0)
  {
    hide IsZero;
    assert Zeros(target)[..0] == [] && data[start..start] == [];
  }

  lemma PlacedNext(mask: Bytes, data: Bytes, out: Bytes, start: nat, ptr: nat, i: nat)
    requires i < 8 * |mask| && Placed(mask, data, out, start, ptr, i)
    ensures !Bit(mask, i) ==> Placed(mask, data, out, start, ptr, i + 1)
    ensures Bit(mask, i) && i < |out| && ptr < |data| && !IsZero(data[ptr]) ==>
      Placed(mask, data, out[i := data[ptr]], start, ptr + 1, i + 1)
  {
    hide IsZero, NonZero, Bit;
    if i < |out| {
      NonZeroNext(out, i);
      assert !NonZeroAt(out, i);
      if Bit(mask, i) && ptr < |data| {
        var next := out[i := data[ptr]];
        assert next[..i] == out[..i];
        NonZeroNext(next, i);
        assert data[start..ptr + 1] == data[start..ptr] + [data[ptr]];
        assert forall j: nat :: j != i ==> NonZeroAt(next, j) == NonZeroAt(out, j);
      }
    }
  }

  lemma SameMask(mask: Bytes, out: Bytes)
    requires |mask| == Eighth(|out|)
    requires forall j: nat :: j < 8 * |mask| ==> NonZeroAt(out, j) == Bit(mask, j)
    ensures Mask(out) == mask
  {
    forall k | 0 <= k < |mask| ensures Mask(out)[k] == mask[k] {
      forall j | 0 <= j < 8 ensures Mask(out)[k][j] == mask[k][j] {
        var i := 8 * k + j;
        assert i / 8 == k && i % 8 == j;
        MaskBit(out, i);
        assert Bit(mask, i) == mask[k][j];
      }
    }
  }

  /** What is decoded from some bytes encodes to just those bytes; from none, it is all zeros. */
  lemma {:induction false} DecodeWas(data: Bytes, target: nat)
    requires DecodePartial(data, target).Ok?
    ensures var (out, size) := DecodePartial(data, target).value;
      size <= |data| && if size == 0 then NonZero(out) == [] else Encode(out) == Some(data[..size])
    decreases target
  {
    hide IsZero, Fill, Mask, NonZero, Bit, NonZeroAt, Placed;
    var (out, size) := DecodePartial(data, target).value;
    SomeNonZero(out);
    if target == 1 && |data| > 0 {
      assert data[..1] == [data[0]];
    } else if target > 1 && |data| > 0 {
      DecodeWas(data, Eighth(target));
      var (mask, ptr) := DecodePartial(data, Eighth(target)).value;
      FillWas(mask, data, target, ptr, 8 * |mask|);
      AllPlaced(mask, data, out, ptr, size);
      MaskNonZero(out);
      EncodeNonEmpty(mask);
      assert ptr == 0 ==> data[ptr..size] == data[..size];
      assert data[..size] == data[..ptr] + data[ptr..size];
    }
  }

  lemma AllPlaced(mask: Bytes, data: Bytes, out: Bytes, start: nat, ptr: nat)
    requires |mask| == Eighth(|out|) && Placed(mask, data, out, start, ptr, 8 * |mask|)
    ensures start <= ptr <= |data| && Mask(out) == mask && NonZero(out) == data[start..ptr]
  {
    hide NonZero, Mask, NonZeroAt, Bit;
    assert out[..|out|] == out;
    SameMask(mask, out);
  }

  /** Every input that is accepted, not empty and shorter than the target is what the encoder
      makes of the decoded bytes. */
  lemma AcceptedIsCompressed(data: Bytes, target: nat)
    requires 0 < |data| < target && Decompress(data, target).Ok?
    ensures |Decompress(data, target).value| == target && Compress(Decompress(data, target).value) == data
  {
    DecodeWas(data, target);
    assert data[..|data|] == data;
  }

  /** So a non-empty input shorter than the target is accepted exactly when it is what the encoder
      makes of some bytes of the target's length. */
  lemma AcceptedExactly(data: Bytes, target: nat)
    requires 0 < |data| < target
    ensures Decompress(data, target).Ok? <==> exists d: Bytes :: |d| == target && Compress(d) == data
  {
    hide Compress, Decompress;
    if Decompress(data, target).Ok? {
      AcceptedIsCompressed(data, target);
    }
    if d: Bytes :| |d| == target && Compress(d) == data {
      RoundTrip(d);
    }
  }

  /** So no two such inputs decode to the same bytes. */
  lemma DecodingIsInjective(data: Bytes, data': Bytes, target: nat)
    requires 0 < |data| < target && 0 < |data'| < target
    requires Decompress(data, target).Ok? && Decompress(data', target) == Decompress(data, target)
    ensures data == data'
  {
    AcceptedIsCompressed(data, target);
    AcceptedIsCompressed(data', target);
  }

  // ---- The code ----

  method BitsetEncodeBytes(data: Bytes) returns (r: Option<Bytes>)
    ensures r == Encode(data)
    decreases |data|
  {
    if |data| == 0 {
      return None;
    }
    if |data| == 1 {
      if IsZero(data[0]) {
        return None;
      }
      return Some(data);
    }
    var nonZeroBitset := new Byte[Eighth(|data|)](_ => ZERO);
    var nonZeroBytes: Bytes := [];
    for i := 0 to |data|
      invariant nonZeroBytes == NonZero(data[..i])
      invariant forall j: nat :: j / 8 < nonZeroBitset.Length ==>
        Bit(nonZeroBitset[..], j) == (j < i && NonZeroAt(data, j))
    {
      NonZeroNext(data, i);
      if !IsZero(data[i]) {
        nonZeroBytes := nonZeroBytes + [data[i]];
        ghost var was := nonZeroBitset[..];
        nonZeroBitset[i / 8] := nonZeroBitset[i / 8][i % 8 := true];
        SetBit(was, nonZeroBitset[..], i);
      }
    }
    assert data[..|data|] == data;
    if |nonZeroBytes| == 0 {
      return None;
    }
    SameMask(nonZeroBitset[..], data);
    var result := BitsetEncodeBytes(nonZeroBitset[..]);
    if result.None? {
      return None;
    }
    r := Some(result.value + nonZeroBytes);
  }

  lemma SetBit(was: Bytes, mask: Bytes, i: nat)
    requires i / 8 < |was| && mask == was[i / 8 := was[i / 8][i % 8 := true]]
    ensures forall j: nat :: j / 8 < |mask| ==> Bit(mask, j) == (j == i || Bit(was, j))
  {
    forall j: nat | j / 8 < |mask| ensures Bit(mask, j) == (j == i || Bit(was, j)) {
      if j / 8 == i / 8 {
        assert j == 8 * (j / 8) + j % 8 && i == 8 * (i / 8) + i % 8;
      }
    }
  }

  method CompressBytes(data: Bytes) returns (out: Bytes)
    ensures out == Compress(data)
  {
    var r := BitsetEncodeBytes(data);
    out := if r.Some? && |r.value| < |data| then r.value else data;
  }

  method BitsetDecodePartialBytes(data: Bytes, target: nat) returns (r: Result<(Bytes, nat)>)
    ensures r == DecodePartial(data, target)
    decreases target
  {
    if target == 0 {
      return Ok(([], 0));
    }
    if |data| == 0 {
      return Ok((Zeros(target), 0));
    }
    if target == 1 {
      return Ok(([data[0]], if !IsZero(data[0]) then 1 else 0));
    }
    var inner := BitsetDecodePartialBytes(data, Eighth(target));
    if inner.Err? {
      return Err(inner.error);
    }
    var (nonZeroBitset, ptr) := inner.value;
    ghost var start := ptr;
    var decomp := new Byte[target](_ => ZERO);
    assert decomp[..] == Zeros(target);
    for i := 0 to 8 * |nonZeroBitset|
      invariant Fill(nonZeroBitset, data, target, start, i) == Ok((decomp[..], ptr))
    {
      if nonZeroBitset[i / 8][i % 8] {
        if ptr >= |data| {
          FillFails(nonZeroBitset, data, target, start, i + 1, 8 * |nonZeroBitset|);
          return Err(MissingData);
        }
        if i >= decomp.Length {
          FillFails(nonZeroBitset, data, target, start, i + 1, 8 * |nonZeroBitset|);
          return Err(ExceededTarget);
        }
        if IsZero(data[ptr]) {
          FillFails(nonZeroBitset, data, target, start, i + 1, 8 * |nonZeroBitset|);
          return Err(ZeroContent);
        }
        decomp[i] := data[ptr];
        ptr := ptr + 1;
      }
    }
    r := Ok((decomp[..], ptr));
  }

  lemma {:induction false} FillFails(mask: Bytes, data: Bytes, target: nat, start: nat, i: nat, k: nat)
    requires i <= k <= 8 * |mask| && Fill(mask, data, target, start, i).Err?
    ensures Fill(mask, data, target, start, k) == Fill(mask, data, target, start, i)
  {
    hide IsZero;
    if i < k {
      FillFails(mask, data, target, start, i, k - 1);
    }
  }

  method DecompressBytes(data: Bytes, target: nat) returns (r: Result<Bytes>)
    ensures r == Decompress(data, target)
  {
    if |data| > target {
      return Err(ExceededTarget);
    }
    if |data| == target {
      return Ok(data);
    }
    var partial := BitsetDecodePartialBytes(data, target);
    if partial.Err? {
      return Err(partial.error);
    }
    var (out, size) := partial.value;
    r := if size != |data| then Err(UnreferencedData) else Ok(out);
  }
}
