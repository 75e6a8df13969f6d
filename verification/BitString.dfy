/** The bits of a byte string as GETBIT and SETBIT number them: bit 0 is the most
    significant bit of the first byte. */
module BitString {

  /** The eight bits of a byte, most significant first. */
  function ByteBits(b: bv8): (bits: seq<bool>)
    ensures |bits| == 8
  {
    [b & 0x80 != 0, b & 0x40 != 0, b & 0x20 != 0, b & 0x10 != 0, b & 8 != 0, b & 4 != 0, b & 2 != 0, b & 1 != 0]
  }

  /** 1 << (7 - k) */
  function Mask(k: nat): bv8
    requires k < 8
  {
    if k == 0 then 0x80 else if k == 1 then 0x40 else if k == 2 then 0x20 else if k == 3 then 0x10
    else if k == 4 then 8 else if k == 5 then 4 else if k == 6 then 2 else 1
  }

  /** The bits of a string, one after the other. */
  function Bits(s: seq<bv8>): (bits: seq<bool>)
    ensures |bits| == 8 * |s|
  {
    if s == [] then [] else ByteBits(s[0]) + Bits(s[1..])
  }

  lemma {:induction false} BitsAppend(s: seq<bv8>, b: bv8)
    ensures Bits(s + [b]) == Bits(s) + ByteBits(b)
  {
    hide ByteBits;
    if s != [] {
      assert (s + [b])[1..] == s[1..] + [b];
      BitsAppend(s[1..], b);
    } else {
      assert [b][1..] == [];
    }
  }

  /** GETBIT: past the end of the string every bit is clear. */
  function GetBit(s: seq<bv8>, offset: nat): bool {
    offset / 8 < |s| && Has(s[offset / 8], Mask(offset % 8))
  }

  predicate Has(b: bv8, mask: bv8) {
    b & mask != 0
  }

  lemma {:induction false} GetBitIsBit(s: seq<bv8>, offset: nat)
    ensures GetBit(s, offset) == (offset < 8 * |s| && Bits(s)[offset])
  {
    hide ByteBits;
    if 8 <= offset && s != [] {
      GetBitIsBit(s[1..], offset - 8);
      assert (offset - 8) / 8 == offset / 8 - 1 && (offset - 8) % 8 == offset % 8;
    } else if s != [] {
      MaskSelects(s[0], offset);
    }
  }

  lemma MaskSelects(b: bv8, k: nat)
    requires k < 8
    ensures Has(b, Mask(k)) == ByteBits(b)[k]
  {
  }

  /** SETBIT on a string, which grows with zero bytes when it is too short; the reply is the
      old bit. */
  method SetBit(s: seq<bv8>, offset: nat, on: bool) returns (t: seq<bv8>, was: bool)
    ensures was == GetBit(s, offset) && GetBit(t, offset) == on
    ensures forall k: nat | k != offset :: GetBit(t, k) == GetBit(s, k)
    ensures |t| == if |s| <= offset / 8 then offset / 8 + 1 else |s|
  {
    hide Mask, Has, WithBit;
    var at := offset / 8;
    var grown := if |s| <= at then s + seq(at + 1 - |s|, _ => 0) else s;
    NoBits();
    var mask := Mask(offset % 8);
    was := Has(grown[at], mask);
    t := grown[at := WithBit(grown[at], mask, on)];
    MaskSets(grown[at], on, offset % 8);
    forall k: nat | k != offset ensures GetBit(t, k) == GetBit(s, k) {
      if k / 8 == at { MasksApart(grown[at], on, offset % 8, k % 8); }
    }
  }

  lemma NoBits()
    ensures forall mask :: !Has(0, mask)
  {
  }

  /** The byte with one bit cleared and then set if wanted. */
  function WithBit(b: bv8, mask: bv8, on: bool): bv8 {
    (b & !mask) | (if on then mask else 0)
  }

  lemma MaskSets(b: bv8, on: bool, k: nat)
    requires k < 8
    ensures Has(WithBit(b, Mask(k), on), Mask(k)) == on
  {
  }

  lemma MasksApart(b: bv8, on: bool, k: nat, l: nat)
    requires k < 8 && l < 8 && k != l
    ensures Has(WithBit(b, Mask(k), on), Mask(l)) == Has(b, Mask(l))
  {
  }
}
