/** The bitmap that stands for a set of hash slots (bitmapTestBit and its two mutators). */
module SlotBitmap {

  /** `1 << bit` on a byte. */
  function Mask(bit: nat): bv8
    requires bit < 8
  {
    if bit == 0 then 0x01 else if bit == 1 then 0x02 else if bit == 2 then 0x04 else if bit == 3 then 0x08
    else if bit == 4 then 0x10 else if bit == 5 then 0x20 else if bit == 6 then 0x40 else 0x80
  }

  predicate BitAt(b: seq<bv8>, byte: nat, bit: nat)
    requires byte < |b| && bit < 8
  {
    b[byte] & Mask(bit) != 0
  }

  /** The bytes after setting or clearing one bit. */
  function WithBit(b: seq<bv8>, byte: nat, bit: nat, on: bool): seq<bv8>
    requires byte < |b| && bit < 8
  {
    b[byte := if on then b[byte] | Mask(bit) else b[byte] & !Mask(bit)]
  }

  predicate TestBit(b: seq<bv8>, pos: nat)
    requires pos < 8 * |b|
  {
    BitAt(b, pos / 8, pos % 8)
  }

  /** The positions whose bit is set. */
  function BitsOf(b: seq<bv8>): set<nat> { set j | 0 <= j < 8 * |b| && TestBit(b, j) }

  lemma MaskBits(x: bv8, i: nat, k: nat)
    requires i < 8 && k < 8
    ensures (x | Mask(i)) & Mask(k) != 0 <==> i == k || x & Mask(k) != 0
    ensures (x & !Mask(i)) & Mask(k) != 0 <==> i != k && x & Mask(k) != 0
  {
  }

  /** Writing one bit changes that bit only. */
  lemma WithBitAt(b: seq<bv8>, q: nat, r: nat, p: nat, s: nat, on: bool)
    requires q < |b| && r < 8 && p < |b| && s < 8
    ensures BitAt(WithBit(b, q, r, on), p, s) <==> if p == q && s == r then on else BitAt(b, p, s)
  {
    hide Mask;
    MaskBits(b[q], r, s);
  }

  lemma WithBitOf(b: seq<bv8>, pos: nat, on: bool)
    requires pos < 8 * |b|
    ensures |WithBit(b, pos / 8, pos % 8, on)| == |b|
    ensures BitsOf(WithBit(b, pos / 8, pos % 8, on)) == if on then BitsOf(b) + {pos} else BitsOf(b) - {pos}
  {
    hide Mask, BitAt, WithBit;
    WithBitLength(b, pos / 8, pos % 8, on);
    var b' := WithBit(b, pos / 8, pos % 8, on);
    forall j | 0 <= j < 8 * |b| ensures TestBit(b', j) <==> if j == pos then on else TestBit(b, j) {
      WithBitAt(b, pos / 8, pos % 8, j / 8, j % 8, on);
    }
  }

  lemma WithBitLength(b: seq<bv8>, q: nat, r: nat, on: bool)
    requires q < |b| && r < 8
    ensures |WithBit(b, q, r, on)| == |b|
  {
  }

  method BitmapTestBit(bitmap: array<bv8>, pos: nat) returns (on: bool)
    requires pos < 8 * bitmap.Length
    ensures on <==> pos in BitsOf(bitmap[..])
  {
    on := bitmap[pos / 8] & Mask(pos % 8) != 0;
  }

  method BitmapSetBit(bitmap: array<bv8>, pos: nat)
    requires pos < 8 * bitmap.Length
    modifies bitmap
    ensures BitsOf(bitmap[..]) == old(BitsOf(bitmap[..])) + {pos}
  {
    hide BitsOf, Mask;
    ghost var b := bitmap[..];
    bitmap[pos / 8] := bitmap[pos / 8] | Mask(pos % 8);
    assert bitmap[..] == WithBit(b, pos / 8, pos % 8, true);
    WithBitOf(b, pos, true);
  }

  method BitmapClearBit(bitmap: array<bv8>, pos: nat)
    requires pos < 8 * bitmap.Length
    modifies bitmap
    ensures BitsOf(bitmap[..]) == old(BitsOf(bitmap[..])) - {pos}
  {
    hide BitsOf, Mask;
    ghost var b := bitmap[..];
    bitmap[pos / 8] := bitmap[pos / 8] & !Mask(pos % 8);
    assert bitmap[..] == WithBit(b, pos / 8, pos % 8, false);
    WithBitOf(b, pos, false);
  }
}
