/** redisBitpos: the first bit of a byte string that has a given value, found a machine word
    at a time, for words of any width and strings at any address. */
module BitPos {
  import opened BitString

  /** A machine word: its bits, most significant first. */
  type Word = seq<bool>

  function Zero(n: nat): Word {
    seq(n, _ => false)
  }

  function AllOnes(n: nat): Word {
    seq(n, _ => true)
  }

  function Not(w: Word): Word {
    seq(|w|, i requires 0 <= i < |w| => !w[i])
  }

  function ShiftRight(w: Word): Word
    requires w != []
  {
    [false] + w[..|w| - 1]
  }

  /** word <<= 8; word |= byte */
  function PushByte(w: Word, b: bv8): Word
    requires |w| >= 8
  {
    w[8..] + ByteBits(b)
  }

  predicate Meet(v: Word, w: Word)
    requires |v| == |w|
  {
    exists i | 0 <= i < |v| :: v[i] && w[i]
  }

  /** Bit `k` of the string is the one sought. */
  predicate Found(s: seq<bv8>, bit: int, k: nat) {
    GetBit(s, k) == (bit == 1)
  }

  /** `size` is the size of a word in bytes and `address` that of the string. */
  method BitPos(s: seq<bv8>, bit: int, address: nat, size: nat) returns (pos: int)
    requires size > 0 && (bit == 0 || bit == 1)
    ensures pos == -1 <==> bit == 1 && forall k: nat :: !GetBit(s, k)
    ensures pos >= 0 ==> Found(s, bit, pos) && forall k: nat | k < pos :: !Found(s, bit, k)
    ensures -1 <= pos <= 8 * |s| && (pos == 8 * |s| ==> bit == 0)
  {
    hide ByteBits, GetBit;
    var skip: bv8 := if bit == 1 then 0 else 0xff;
    var c := SkipBytes(s, skip, address, size);
    c := SkipWords(s, skip, c, size);
    pos := 8 * c;
    var word := LoadWord(s, c, size);
    SkippedBits(s, bit, skip, c);
    WindowBits(s, c, size);
    if bit == 1 && word == Zero(8 * size) {
      NothingLeft(s, c, size);
      return -1;
    }
    SomeMatch(s, bit, skip, c, size);
    var one := AllOnes(8 * size);
    one := ShiftRight(one);
    one := Not(one);
    ghost var k := 0;
    while one != Zero(8 * size)
      invariant 0 <= k <= 8 * size && pos == 8 * c + k && one == OneAt(8 * size, k)
      invariant forall i | 0 <= i < k :: word[i] != (bit == 1)
      decreases 8 * size - k
    {
      MeetsOne(word, k);
      if Meet(one, word) == (bit == 1) {
        InWindow(s, bit, c, size, word, k);
        return;
      }
      pos := pos + 1;
      one := ShiftRight(one);
      k := k + 1;
    }
    OneLeft(8 * size, k);
    assert false;
  }

  /** Byte by byte up to an aligned address. */
  method SkipBytes(s: seq<bv8>, skip: bv8, address: nat, size: nat) returns (c: nat)
    requires size > 0
    ensures c <= |s| && forall i | 0 <= i < c :: s[i] == skip
  {
    c := 0;
    while (address + c) % size != 0 && c < |s|
      invariant c <= |s| && forall i | 0 <= i < c :: s[i] == skip
      decreases |s| - c
    {
      if s[c] != skip { return; }
      c := c + 1;
    }
  }

  /** Word by word while a whole word is left and all of its bytes are to be skipped. */
  method SkipWords(s: seq<bv8>, skip: bv8, start: nat, size: nat) returns (c: nat)
    requires size > 0 && start <= |s| && forall i | 0 <= i < start :: s[i] == skip
    ensures c <= |s| && forall i | 0 <= i < c :: s[i] == skip
    ensures c + size <= |s| ==> exists i | c <= i < c + size :: s[i] != skip
  {
    c := start;
    while c + size <= |s|
      invariant c <= |s| && forall i | 0 <= i < c :: s[i] == skip
      decreases |s| - c
    {
      if exists i | c <= i < c + size :: s[i] != skip { return; }
      c := c + size;
    }
  }

  /** The next `size` bytes, zero past the end. */
  function Window(s: seq<bv8>, c: nat, size: nat): seq<bv8>
    requires c <= |s|
  {
    seq(size, i requires 0 <= i => if c + i < |s| then s[c + i] else 0)
  }

  method LoadWord(s: seq<bv8>, start: nat, size: nat) returns (word: Word)
    requires start <= |s| && size > 0
    ensures word == Bits(Window(s, start, size))
  {
    hide ByteBits;
    var window := Window(s, start, size);
    word := Zero(8 * size);
    var c := start;
    Nothing();
    for j := 0 to size
      invariant |word| == 8 * size && c == if start + j <= |s| then start + j else |s|
      invariant word == Zero(8 * (size - j)) + Bits(window[..j])
    {
      assert window[..j + 1] == window[..j] + [window[j]];
      BitsAppend(window[..j], window[j]);
      if c < |s| {
        word := PushByte(word, s[c]);
        c := c + 1;
      } else {
        word := PushByte(word, 0); // a shift only
      }
    }
    assert window[..size] == window;
  }

  lemma Nothing()
    ensures Bits([]) == []
  {
  }

  /** The word whose only bit is bit `k`, or zero. */
  function OneAt(n: nat, k: nat): Word {
    seq(n, i => i == k)
  }

  lemma MeetsOne(w: Word, k: nat)
    requires k < |w|
    ensures Meet(OneAt(|w|, k), w) == w[k]
  {
    assert w[k] ==> OneAt(|w|, k)[k];
  }

  lemma WindowBits(s: seq<bv8>, c: nat, size: nat)
    requires c <= |s|
    ensures forall k | 0 <= k < 8 * size :: Bits(Window(s, c, size))[k] == GetBit(s, 8 * c + k)
  {
    hide Has, Mask, ByteBits, Bits;
    forall k | 0 <= k < 8 * size ensures Bits(Window(s, c, size))[k] == GetBit(s, 8 * c + k) {
      GetBitIsBit(Window(s, c, size), k);
      assert (8 * c + k) / 8 == c + k / 8 && (8 * c + k) % 8 == k % 8;
      ZeroBits(k % 8);
    }
  }

  lemma ZeroBits(k: nat)
    requires k < 8
    ensures !Has(0, Mask(k)) && Has(0xff, Mask(k))
  {
  }

  /** None of the skipped bits is the one sought. */
  lemma SkippedBits(s: seq<bv8>, bit: int, skip: bv8, c: nat)
    requires c <= |s| && (bit == 0 || bit == 1) && skip == (if bit == 1 then 0 else 0xff)
    requires forall i | 0 <= i < c :: s[i] == skip
    ensures forall k: nat | k < 8 * c :: !Found(s, bit, k)
  {
    hide Has, Mask;
    forall k: nat | k < 8 * c ensures !Found(s, bit, k) {
      ZeroBits(k % 8);
    }
  }

  lemma InWindow(s: seq<bv8>, bit: int, c: nat, size: nat, word: Word, k: nat)
    requires c <= |s| && k < 8 * size && (bit == 0 || bit == 1) && word == Bits(Window(s, c, size))
    requires forall i | 0 <= i < k :: word[i] != (bit == 1)
    requires forall i: nat | i < 8 * c :: !Found(s, bit, i)
    requires word[k] == (bit == 1)
    ensures Found(s, bit, 8 * c + k) && forall i: nat | i < 8 * c + k :: !Found(s, bit, i)
    ensures 8 * c + k <= 8 * |s| && (8 * c + k == 8 * |s| ==> bit == 0)
  {
    hide Has, Mask, Bits;
    WindowBits(s, c, size);
    forall i: nat | i < 8 * c + k ensures !Found(s, bit, i) {
      if i >= 8 * c { assert word[i - 8 * c] == GetBit(s, 8 * c + (i - 8 * c)); }
    }
    assert word[k] == GetBit(s, 8 * c + k);
    assert 8 * |s| < 8 * c + k ==> !Found(s, bit, 8 * |s|);
  }

  lemma ByteSame(b: bv8, v: bool)
    requires forall k | 0 <= k < 8 :: Has(b, Mask(k)) == v
    ensures b == if v then 0xff else 0
  {
    assert Has(b, Mask(0)) == v && Has(b, Mask(1)) == v && Has(b, Mask(2)) == v && Has(b, Mask(3)) == v;
    assert Has(b, Mask(4)) == v && Has(b, Mask(5)) == v && Has(b, Mask(6)) == v && Has(b, Mask(7)) == v;
  }

  lemma AllSame(s: seq<bv8>, v: bool)
    requires forall k | 0 <= k < 8 * |s| :: Bits(s)[k] == v
    ensures forall i | 0 <= i < |s| :: s[i] == if v then 0xff else 0
  {
    hide Has, Mask, Bits;
    forall i | 0 <= i < |s| ensures s[i] == if v then 0xff else 0 {
      forall k | 0 <= k < 8 ensures Has(s[i], Mask(k)) == v {
        GetBitIsBit(s, 8 * i + k);
        assert (8 * i + k) / 8 == i && (8 * i + k) % 8 == k;
      }
      ByteSame(s[i], v);
    }
  }

  lemma WindowInside(s: seq<bv8>, c: nat, size: nat, b: bv8)
    requires c <= |s| && forall i | 0 <= i < size :: Window(s, c, size)[i] == b
    ensures forall i | c <= i < c + size && i < |s| :: s[i] == b
    ensures c + size > |s| ==> b == 0
  {
    forall i | c <= i < c + size && i < |s| ensures s[i] == b {
      assert Window(s, c, size)[i - c] == b;
    }
    if c + size > |s| { assert Window(s, c, size)[|s| - c] == b; }
  }

  /** A zero word after skipped zero bytes is the end of the string. */
  lemma NothingLeft(s: seq<bv8>, c: nat, size: nat)
    requires c <= |s| && Bits(Window(s, c, size)) == Zero(8 * size)
    requires c + size <= |s| ==> exists i | c <= i < c + size :: s[i] != 0
    requires forall k: nat | k < 8 * c :: !Found(s, 1, k)
    ensures forall k: nat :: !GetBit(s, k)
  {
    hide Has, Mask, Bits;
    AllSame(Window(s, c, size), false);
    WindowInside(s, c, size, 0);
    forall k: nat ensures !GetBit(s, k) {
      if k < 8 * c { assert !Found(s, 1, k); } else if k / 8 < |s| { ZeroBits(k % 8); }
    }
  }

  lemma OneLeft(n: nat, k: nat)
    ensures k < n ==> OneAt(n, k) != Zero(n)
  {
    if k < n { assert OneAt(n, k)[k] != Zero(n)[k]; }
  }

  lemma NotFull(b: bv8)
    requires b != 0xff
    ensures exists k | 0 <= k < 8 :: !Has(b, Mask(k))
  {
    assert !Has(b, Mask(0)) || !Has(b, Mask(1)) || !Has(b, Mask(2)) || !Has(b, Mask(3)) ||
           !Has(b, Mask(4)) || !Has(b, Mask(5)) || !Has(b, Mask(6)) || !Has(b, Mask(7));
  }

  /** So the panic at the end of the function cannot be reached: what stopped the skipping
      has a bit of the value sought. */
  lemma SomeMatch(s: seq<bv8>, bit: int, skip: bv8, c: nat, size: nat)
    requires c <= |s| && size > 0 && (bit == 0 || bit == 1) && skip == (if bit == 1 then 0 else 0xff)
    requires !(bit == 1 && Bits(Window(s, c, size)) == Zero(8 * size))
    requires c + size <= |s| ==> exists i | c <= i < c + size :: s[i] != skip
    ensures exists k | 0 <= k < 8 * size :: Bits(Window(s, c, size))[k] == (bit == 1)
  {
    hide Has, Mask, Bits;
    var window := Window(s, c, size);
    if bit == 1 {
      var k :| 0 <= k < 8 * size && Bits(window)[k] != Zero(8 * size)[k];
    } else {
      var i: nat := if c + size <= |s| then var j :| c <= j < c + size && s[j] != skip; j else |s|;
      NotFull(window[i - c]);
      var k :| 0 <= k < 8 && !Has(window[i - c], Mask(k));
      GetBitIsBit(window, 8 * (i - c) + k);
      assert (8 * (i - c) + k) / 8 == i - c && (8 * (i - c) + k) % 8 == k;
    }
  }
}
