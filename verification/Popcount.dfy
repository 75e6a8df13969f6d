/** redisPopcount: bytes counted by table up to an aligned address, then 28 bytes at a time
    with all lanes of a word in parallel, then the rest by table. */
module Popcount {
  import opened BitString

  // bitsinbyte, eight entries a row and eight rows a part

  const PART0: seq<seq<nat>> := [
    [0, 1, 1, 2, 1, 2, 2, 3], [1, 2, 2, 3, 2, 3, 3, 4],
    [1, 2, 2, 3, 2, 3, 3, 4], [2, 3, 3, 4, 3, 4, 4, 5],
    [1, 2, 2, 3, 2, 3, 3, 4], [2, 3, 3, 4, 3, 4, 4, 5],
    [2, 3, 3, 4, 3, 4, 4, 5], [3, 4, 4, 5, 4, 5, 5, 6]
  ]

  const PART1: seq<seq<nat>> := [
    [1, 2, 2, 3, 2, 3, 3, 4], [2, 3, 3, 4, 3, 4, 4, 5],
    [2, 3, 3, 4, 3, 4, 4, 5], [3, 4, 4, 5, 4, 5, 5, 6],
    [2, 3, 3, 4, 3, 4, 4, 5], [3, 4, 4, 5, 4, 5, 5, 6],
    [3, 4, 4, 5, 4, 5, 5, 6], [4, 5, 5, 6, 5, 6, 6, 7]
  ]

  const PART2: seq<seq<nat>> := [
    [1, 2, 2, 3, 2, 3, 3, 4], [2, 3, 3, 4, 3, 4, 4, 5],
    [2, 3, 3, 4, 3, 4, 4, 5], [3, 4, 4, 5, 4, 5, 5, 6],
    [2, 3, 3, 4, 3, 4, 4, 5], [3, 4, 4, 5, 4, 5, 5, 6],
    [3, 4, 4, 5, 4, 5, 5, 6], [4, 5, 5, 6, 5, 6, 6, 7]
  ]

  const PART3: seq<seq<nat>> := [
    [2, 3, 3, 4, 3, 4, 4, 5], [3, 4, 4, 5, 4, 5, 5, 6],
    [3, 4, 4, 5, 4, 5, 5, 6], [4, 5, 5, 6, 5, 6, 6, 7],
    [3, 4, 4, 5, 4, 5, 5, 6], [4, 5, 5, 6, 5, 6, 6, 7],
    [4, 5, 5, 6, 5, 6, 6, 7], [5, 6, 6, 7, 6, 7, 7, 8]
  ]

  const BITS_IN_BYTE: seq<seq<seq<nat>>> := [PART0, PART1, PART2, PART3]

  function Lookup(b: bv8): nat {
    assert b >> 6 < 4 && (b >> 3) & 7 < 8 && b & 7 < 8;
    var part := BITS_IN_BYTE[(b >> 6) as int];
    part[((b >> 3) & 7) as int][(b & 7) as int]
  }

  /** How many of the bits are set. */
  function Count(bits: seq<bool>): nat {
    if bits == [] then 0 else (if bits[0] then 1 else 0) + Count(bits[1..])
  }

  function One(b: bv8, mask: bv8): nat {
    if b & mask != 0 then 1 else 0
  }

  function Ones(b: bv8): nat {
    One(b, 0x80) + One(b, 0x40) + One(b, 0x20) + One(b, 0x10) + One(b, 8) + One(b, 4) + One(b, 2) + One(b, 1)
  }

  function RowOf(first: bv8): seq<nat> {
    [Ones(first), Ones(first + 1), Ones(first + 2), Ones(first + 3),
     Ones(first + 4), Ones(first + 5), Ones(first + 6), Ones(first + 7)]
  }

  lemma Part0()
    ensures |PART0| == 8
    ensures PART0[0] == RowOf(0)
    ensures PART0[1] == RowOf(8)
    ensures PART0[2] == RowOf(16)
    ensures PART0[3] == RowOf(24)
    ensures PART0[4] == RowOf(32)
    ensures PART0[5] == RowOf(40)
    ensures PART0[6] == RowOf(48)
    ensures PART0[7] == RowOf(56)
  {
  }

  lemma Part1()
    ensures |PART1| == 8
    ensures PART1[0] == RowOf(64)
    ensures PART1[1] == RowOf(72)
    ensures PART1[2] == RowOf(80)
    ensures PART1[3] == RowOf(88)
    ensures PART1[4] == RowOf(96)
    ensures PART1[5] == RowOf(104)
    ensures PART1[6] == RowOf(112)
    ensures PART1[7] == RowOf(120)
  {
  }

  lemma Part2()
    ensures |PART2| == 8
    ensures PART2[0] == RowOf(128)
    ensures PART2[1] == RowOf(136)
    ensures PART2[2] == RowOf(144)
    ensures PART2[3] == RowOf(152)
    ensures PART2[4] == RowOf(160)
    ensures PART2[5] == RowOf(168)
    ensures PART2[6] == RowOf(176)
    ensures PART2[7] == RowOf(184)
  {
  }

  lemma Part3()
    ensures |PART3| == 8
    ensures PART3[0] == RowOf(192)
    ensures PART3[1] == RowOf(200)
    ensures PART3[2] == RowOf(208)
    ensures PART3[3] == RowOf(216)
    ensures PART3[4] == RowOf(224)
    ensures PART3[5] == RowOf(232)
    ensures PART3[6] == RowOf(240)
    ensures PART3[7] == RowOf(248)
  {
  }

  lemma Row(part: bv8, row: bv8)
    requires part < 4 && row < 8
    ensures |BITS_IN_BYTE| == 4 && |BITS_IN_BYTE[part as int]| == 8
    ensures BITS_IN_BYTE[part as int][row as int] == RowOf((part << 6) + (row << 3))
  {
    hide PART0, PART1, PART2, PART3, RowOf;
    Part0(); Part1(); Part2(); Part3();
  }

  lemma TableCounts(b: bv8)
    ensures Lookup(b) == Ones(b)
  {
    hide BITS_IN_BYTE, Ones;
    Row(b >> 6, (b >> 3) & 7);
    var first, k := ((b >> 6) << 6) + (((b >> 3) & 7) << 3), b & 7;
    assert k < 8 && first + k == b;
  }

  lemma {:induction false} CountJoin(p: seq<bool>, q: seq<bool>)
    ensures Count(p + q) == Count(p) + Count(q)
    decreases p
  {
    if p != [] {
      assert (p + q)[1..] == p[1..] + q;
      CountJoin(p[1..], q);
    } else {
      assert p + q == q;
    }
  }

  lemma CountFour(a: bool, b: bool, c: bool, d: bool)
    ensures Count([a, b, c, d]) == (if a then 1 else 0) + (if b then 1 else 0) + (if c then 1 else 0) + (if d then 1 else 0)
  {
    assert [a, b, c, d][1..] == [b, c, d] && [b, c, d][1..] == [c, d] && [c, d][1..] == [d] && [d][1..] == [];
    assert Count([d]) == if d then 1 else 0;
    assert Count([c, d]) == (if c then 1 else 0) + Count([d]);
    assert Count([b, c, d]) == (if b then 1 else 0) + Count([c, d]);
  }

  lemma OnesCounts(b: bv8)
    ensures Ones(b) == Count(ByteBits(b))
  {
    hide Count;
    var bits := ByteBits(b);
    CountFour(bits[0], bits[1], bits[2], bits[3]);
    CountFour(bits[4], bits[5], bits[6], bits[7]);
    CountJoin(bits[..4], bits[4..]);
    assert bits[..4] == [bits[0], bits[1], bits[2], bits[3]] && bits[4..] == [bits[4], bits[5], bits[6], bits[7]];
    assert bits == bits[..4] + bits[4..];
  }

  function Total(s: seq<bv8>): nat {
    if s == [] then 0 else Total(s[..|s| - 1]) + Ones(s[|s| - 1])
  }

  lemma {:induction false} TotalCounts(s: seq<bv8>)
    ensures Total(s) == Count(Bits(s))
  {
    hide Ones, ByteBits;
    if s != [] {
      var front, last := s[..|s| - 1], s[|s| - 1];
      TotalCounts(front);
      assert s == front + [last];
      BitsAppend(front, last);
      CountJoin(Bits(front), ByteBits(last));
      OnesCounts(last);
    }
  }

  // one word: pairs, nibbles and bytes are counted in all four bytes at once

  function Pairs(aux: bv32): bv32 {
    aux - ((aux >> 1) & 0x55555555)
  }

  function Nibbles(aux: bv32): bv32 {
    (aux & 0x33333333) + ((aux >> 2) & 0x33333333)
  }

  function Bytes(aux: bv32): bv32 {
    (aux + (aux >> 4)) & 0x0F0F0F0F
  }

  function Add(x: bv32, y: bv32): bv32 {
    x + y
  }

  /** The sum of the four bytes, in the topmost one. */
  function Gather(sum: bv32): bv32 {
    Topmost(Times(sum))
  }

  function Times(x: bv32): bv32 {
    x * 0x01010101
  }

  function Load(b0: bv8, b1: bv8, b2: bv8, b3: bv8): bv32 {
    (b0 as bv32) | ((b1 as bv32) << 8) | ((b2 as bv32) << 16) | ((b3 as bv32) << 24)
  }

  // the same steps within one byte

  function PairsOf(b: bv8): bv8 {
    ((b & (b >> 1) & 0x55) << 1) | ((b ^ (b >> 1)) & 0x55)
  }

  function NibblesOf(p: bv8): bv8 {
    (p & 0x33) + ((p >> 2) & 0x33)
  }

  function CountOf(n: bv8): bv8 {
    (n & 0x0F) + ((n >> 4) & 0x0F)
  }

  function Lane(b: bv8): bv8 {
    CountOf(NibblesOf(PairsOf(b)))
  }

  lemma LaneCounts(b: bv8)
    ensures Lane(b) as int == Ones(b) && Lane(b) <= 8
  {
  }

  lemma PairsBitwise(x: bv32)
    ensures Pairs(x) == ((x & (x >> 1) & 0x55555555) << 1) | ((x ^ (x >> 1)) & 0x55555555)
  {
  }

  lemma PairsSpread(b0: bv8, b1: bv8, b2: bv8, b3: bv8)
    ensures ((Load(b0, b1, b2, b3) & (Load(b0, b1, b2, b3) >> 1) & 0x55555555) << 1)
            | ((Load(b0, b1, b2, b3) ^ (Load(b0, b1, b2, b3) >> 1)) & 0x55555555) == Load(PairsOf(b0), PairsOf(b1), PairsOf(b2), PairsOf(b3))
  {
  }

  lemma NibblesSpread(b0: bv8, b1: bv8, b2: bv8, b3: bv8)
    ensures (Load(b0, b1, b2, b3) & 0x33333333) + ((Load(b0, b1, b2, b3) >> 2) & 0x33333333) == Load(NibblesOf(b0), NibblesOf(b1), NibblesOf(b2), NibblesOf(b3))
  {
  }

  lemma BytesSpread(b0: bv8, b1: bv8, b2: bv8, b3: bv8)
    ensures (Load(b0, b1, b2, b3) & 0x0F0F0F0F) + ((Load(b0, b1, b2, b3) >> 4) & 0x0F0F0F0F) == Load(CountOf(b0), CountOf(b1), CountOf(b2), CountOf(b3))
  {
  }

  lemma NibblesSmall(b: bv8)
    ensures NibblesOf(PairsOf(b)) & 0x88 == 0
  {
  }

  lemma NoHighBit(b0: bv8, b1: bv8, b2: bv8, b3: bv8)
    requires b0 & 0x88 == 0 && b1 & 0x88 == 0 && b2 & 0x88 == 0 && b3 & 0x88 == 0
    ensures Load(b0, b1, b2, b3) & 0x88888888 == 0
  {
  }

  /** Nibbles below eight add up within their byte. */
  lemma BytesMasksFirst(x: bv32)
    requires x & 0x88888888 == 0
    ensures Bytes(x) == (x & 0x0F0F0F0F) + ((x >> 4) & 0x0F0F0F0F)
  {
  }

  lemma PairsOfLoad(b0: bv8, b1: bv8, b2: bv8, b3: bv8)
    ensures Pairs(Load(b0, b1, b2, b3)) == Load(PairsOf(b0), PairsOf(b1), PairsOf(b2), PairsOf(b3))
  {
    hide Pairs;
    PairsBitwise(Load(b0, b1, b2, b3));
    PairsSpread(b0, b1, b2, b3);
  }

  lemma NibblesOfLoad(b0: bv8, b1: bv8, b2: bv8, b3: bv8)
    ensures Nibbles(Load(b0, b1, b2, b3)) == Load(NibblesOf(b0), NibblesOf(b1), NibblesOf(b2), NibblesOf(b3))
  {
    NibblesSpread(b0, b1, b2, b3);
  }

  lemma BytesOfLoad(b0: bv8, b1: bv8, b2: bv8, b3: bv8)
    requires b0 & 0x88 == 0 && b1 & 0x88 == 0 && b2 & 0x88 == 0 && b3 & 0x88 == 0
    ensures Bytes(Load(b0, b1, b2, b3)) == Load(CountOf(b0), CountOf(b1), CountOf(b2), CountOf(b3))
  {
    hide Bytes;
    NoHighBit(b0, b1, b2, b3);
    BytesMasksFirst(Load(b0, b1, b2, b3));
    BytesSpread(b0, b1, b2, b3);
  }

  /** After the three steps each byte of a word holds its own number of set bits. */
  lemma WordLanes(b0: bv8, b1: bv8, b2: bv8, b3: bv8)
    ensures Bytes(Nibbles(Pairs(Load(b0, b1, b2, b3)))) == Load(Lane(b0), Lane(b1), Lane(b2), Lane(b3))
  {
    hide Load, Bytes, Nibbles, Pairs, CountOf, NibblesOf, PairsOf;
    PairsOfLoad(b0, b1, b2, b3);
    NibblesOfLoad(PairsOf(b0), PairsOf(b1), PairsOf(b2), PairsOf(b3));
    NibblesSmall(b0);
    NibblesSmall(b1);
    NibblesSmall(b2);
    NibblesSmall(b3);
    BytesOfLoad(NibblesOf(PairsOf(b0)), NibblesOf(PairsOf(b1)), NibblesOf(PairsOf(b2)), NibblesOf(PairsOf(b3)));
  }

  /** Lanes below 128 do not carry into each other. */
  lemma LanesCarryNothing(a0: bv8, a1: bv8, a2: bv8, a3: bv8, b0: bv8, b1: bv8, b2: bv8, b3: bv8)
    requires (a0 | a1 | a2 | a3 | b0 | b1 | b2 | b3) & 0x80 == 0
    ensures Load(a0, a1, a2, a3) + Load(b0, b1, b2, b3) == Load(a0 + b0, a1 + b1, a2 + b2, a3 + b3)
  {
  }

  lemma HighBitClear(b: bv8)
    requires Num(b) < 128
    ensures b & 0x80 == 0
  {
  }

  lemma LanesAdd(a0: bv8, a1: bv8, a2: bv8, a3: bv8, b0: bv8, b1: bv8, b2: bv8, b3: bv8)
    requires a0 & 0x80 == 0 && a1 & 0x80 == 0 && a2 & 0x80 == 0 && a3 & 0x80 == 0
    requires b0 & 0x80 == 0 && b1 & 0x80 == 0 && b2 & 0x80 == 0 && b3 & 0x80 == 0
    ensures Add(Load(a0, a1, a2, a3), Load(b0, b1, b2, b3)) == Load(AddByte(a0, b0), AddByte(a1, b1), AddByte(a2, b2), AddByte(a3, b3))
  {
    hide Load;
    AllClear(a0, a1, a2, a3, b0, b1, b2, b3);
    LanesCarryNothing(a0, a1, a2, a3, b0, b1, b2, b3);
  }

  lemma AllClear(a0: bv8, a1: bv8, a2: bv8, a3: bv8, b0: bv8, b1: bv8, b2: bv8, b3: bv8)
    requires a0 & 0x80 == 0 && a1 & 0x80 == 0 && a2 & 0x80 == 0 && a3 & 0x80 == 0
    requires b0 & 0x80 == 0 && b1 & 0x80 == 0 && b2 & 0x80 == 0 && b3 & 0x80 == 0
    ensures (a0 | a1 | a2 | a3 | b0 | b1 | b2 | b3) & 0x80 == 0
  {
  }

  // bytes that do not overflow add up like numbers

  function Num(b: bv8): int {
    b as int
  }

  function AddByte(a: bv8, b: bv8): bv8 {
    a + b
  }

  function Pred(b: bv8): bv8 {
    b - 1
  }

  function Succ(b: bv8): bv8 {
    b + 1
  }

  lemma CountsUp(b: bv8)
    ensures Num(b) < 255 ==> Num(Succ(b)) == Num(b) + 1
    ensures b != 0 ==> 0 <= Num(Pred(b)) == Num(b) - 1
  {
  }

  lemma AddsByOne(a: bv8, b: bv8)
    ensures AddByte(a, b) == Succ(AddByte(a, Pred(b)))
    ensures AddByte(a, 0) == a
  {
  }

  lemma {:induction false} AddExact(a: bv8, b: bv8)
    requires Num(a) + Num(b) <= 255
    ensures Num(AddByte(a, b)) == Num(a) + Num(b)
    decreases Num(b)
  {
    hide AddByte, Pred, Succ, Num;
    ZeroByte();
    AddsByOne(a, b);
    if b != 0 {
      CountsUp(b);
      AddExact(a, Pred(b));
      CountsUp(AddByte(a, Pred(b)));
    }
  }

  // sums of words

  datatype Lanes = Lanes(b0: bv8, b1: bv8, b2: bv8, b3: bv8) {
    function Word(): bv32 {
      Load(b0, b1, b2, b3)
    }

    function Plus(other: Lanes): Lanes {
      Lanes(AddByte(b0, other.b0), AddByte(b1, other.b1), AddByte(b2, other.b2), AddByte(b3, other.b3))
    }

    ghost predicate AtMost(n: int) {
      Num(b0) <= n && Num(b1) <= n && Num(b2) <= n && Num(b3) <= n
    }

    ghost function Value(): int {
      Num(b0) + Num(b1) + Num(b2) + Num(b3)
    }
  }

  lemma LanesPlus(p: Lanes, q: Lanes, m: int, n: int)
    requires p.AtMost(m) && q.AtMost(n) && m < 128 && n < 128
    ensures Add(p.Word(), q.Word()) == p.Plus(q).Word()
    ensures p.Plus(q).Value() == p.Value() + q.Value() && p.Plus(q).AtMost(m + n)
  {
    hide Load, Add, AddByte, Num;
    HighBitClear(p.b0); HighBitClear(p.b1); HighBitClear(p.b2); HighBitClear(p.b3);
    HighBitClear(q.b0); HighBitClear(q.b1); HighBitClear(q.b2); HighBitClear(q.b3);
    LanesAdd(p.b0, p.b1, p.b2, p.b3, q.b0, q.b1, q.b2, q.b3);
    AddExact(p.b0, q.b0);
    AddExact(p.b1, q.b1);
    AddExact(p.b2, q.b2);
    AddExact(p.b3, q.b3);
  }

  function Up8(x: bv32): bv32 {
    x << 8
  }

  function Up16(x: bv32): bv32 {
    x << 16
  }

  function Topmost(x: bv32): bv32 {
    x >> 24
  }

  function Up24(x: bv32): bv32 {
    x << 24
  }

  function Sum3(x: bv32, y: bv32, z: bv32): bv32 {
    x + y + z
  }

  function Sum4(x: bv32, y: bv32, z: bv32, u: bv32): bv32 {
    x + y + z + u
  }

  lemma AddIs(x: bv32, y: bv32)
    ensures Add(x, y) == x + y
  {
  }

  lemma AddSum(x: bv32, y: bv32, s: bv32, z: bv32)
    requires s == x + y
    ensures Add(s, z) == Sum3(x, y, z)
  {
  }

  lemma SumOfSum(x: bv32, y: bv32, z: bv32, u: bv32, s: bv32)
    requires s == z + u
    ensures Sum3(x, y, s) == Sum4(x, y, z, u)
  {
  }

  lemma AddAdds(x: bv32, y: bv32, z: bv32, u: bv32)
    ensures Add(Add(x, y), Add(z, u)) == Sum4(x, y, z, u)
  {
    hide Add, Sum3, Sum4;
    AddIs(x, y);
    AddIs(z, u);
    AddSum(x, y, Add(x, y), Add(z, u));
    SumOfSum(x, y, z, u, Add(z, u));
  }

  /** The multiplication is a sum of shifts. */
  lemma Multiplies(x: bv32, y: bv32, z: bv32, u: bv32)
    requires y == x << 8 && z == x << 16 && u == x << 24
    ensures Times(x) == Sum4(x, y, z, u)
  {
  }

  lemma GatherShifts(x: bv32)
    ensures Gather(x) == Topmost(Sum4(x, Up8(x), Up16(x), Up24(x)))
  {
    hide Times, Sum4;
    Multiplies(x, Up8(x), Up16(x), Up24(x));
  }

  lemma ShiftsMoveLanes(b0: bv8, b1: bv8, b2: bv8, b3: bv8)
    ensures Up8(Load(b0, b1, b2, b3)) == Load(0, b0, b1, b2)
    ensures Up16(Load(b0, b1, b2, b3)) == Load(0, 0, b0, b1)
    ensures Up24(Load(b0, b1, b2, b3)) == Load(0, 0, 0, b0)
    ensures Topmost(Load(b0, b1, b2, b3)) == b3 as bv32
  {
  }

  lemma WidenByte(b: bv8)
    ensures (b as bv32) as int == Num(b)
  {
  }

  /** The multiplication adds up the lanes without carrying into the topmost byte. */
  lemma GatherLanes(p: Lanes)
    requires p.AtMost(56)
    ensures Gather(p.Word()) as int == p.Value()
  {
    hide Load, Add, AddByte, Num, Gather, Up8, Up16, Up24, Sum4, Topmost;
    GatherShifts(p.Word());
    AddAdds(p.Word(), Up8(p.Word()), Up16(p.Word()), Up24(p.Word()));
    ShiftsMoveLanes(p.b0, p.b1, p.b2, p.b3);
    var once, twice, thrice := Lanes(0, p.b0, p.b1, p.b2), Lanes(0, 0, p.b0, p.b1), Lanes(0, 0, 0, p.b0);
    ZeroByte();
    LanesPlus(p, once, 56, 56);
    LanesPlus(twice, thrice, 56, 56);
    var x, y := p.Plus(once), twice.Plus(thrice);
    LanesPlus(x, y, 112, 112);
    var z := x.Plus(y);
    ShiftsMoveLanes(z.b0, z.b1, z.b2, z.b3);
    WidenByte(z.b3);
    AddExact(p.b3, p.b2);
    AddExact(p.b1, p.b0);
    AddExact(x.b3, y.b3);
  }

  lemma ZeroByte()
    ensures Num(0) == 0
  {
  }

  // the blocks

  /** One of the seven words of a block, after the three steps. */
  function Counted(s: seq<bv8>, i: nat): bv32
    requires i + 4 <= |s|
  {
    Bytes(Nibbles(Pairs(Load(s[i], s[i + 1], s[i + 2], s[i + 3]))))
  }

  function CountedLanes(s: seq<bv8>, i: nat): Lanes
    requires i + 4 <= |s|
  {
    Lanes(Lane(s[i]), Lane(s[i + 1]), Lane(s[i + 2]), Lane(s[i + 3]))
  }

  lemma CountedWord(s: seq<bv8>, i: nat)
    requires i + 4 <= |s|
    ensures Counted(s, i) == CountedLanes(s, i).Word() && CountedLanes(s, i).AtMost(8)
    ensures Total(s[..i + 4]) == Total(s[..i]) + CountedLanes(s, i).Value()
  {
    hide Load, Bytes, Nibbles, Pairs, Lane, Ones;
    WordLanes(s[i], s[i + 1], s[i + 2], s[i + 3]);
    LaneCounts(s[i]);
    LaneCounts(s[i + 1]);
    LaneCounts(s[i + 2]);
    LaneCounts(s[i + 3]);
    TotalNext(s, i);
    TotalNext(s, i + 1);
    TotalNext(s, i + 2);
    TotalNext(s, i + 3);
    SmallByte(Lane(s[i]));
    SmallByte(Lane(s[i + 1]));
    SmallByte(Lane(s[i + 2]));
    SmallByte(Lane(s[i + 3]));
  }

  lemma SmallByte(b: bv8)
    ensures b <= 8 ==> Num(b) <= 8
    ensures Num(b) == b as int
  {
  }

  lemma TotalNext(s: seq<bv8>, i: nat)
    requires i < |s|
    ensures Total(s[..i + 1]) == Total(s[..i]) + Ones(s[i])
  {
    hide Ones;
    assert s[..i + 1][..i] == s[..i];
  }

  function BlockSum(s: seq<bv8>, i: nat): bv32
    requires i + 28 <= |s|
  {
    Add(Add(Add(Add(Add(Add(Counted(s, i), Counted(s, i + 4)), Counted(s, i + 8)), Counted(s, i + 12)),
                    Counted(s, i + 16)), Counted(s, i + 20)), Counted(s, i + 24))
  }

  /** No lane overflows: seven counts of at most eight. */
  lemma BlockCounts(s: seq<bv8>, i: nat)
    requires i + 28 <= |s|
    ensures Total(s[..i + 28]) == Total(s[..i]) + Gather(BlockSum(s, i)) as int
  {
    hide Add, Gather, Counted, CountedLanes, Total, Lanes.Word, Lanes.Plus, Lanes.Value, Lanes.AtMost;
    CountedWord(s, i);
    var p := CountedLanes(s, i);
    p := NextWord(s, i, i + 4, p, 8);
    p := NextWord(s, i, i + 8, p, 16);
    p := NextWord(s, i, i + 12, p, 24);
    p := NextWord(s, i, i + 16, p, 32);
    p := NextWord(s, i, i + 20, p, 40);
    p := NextWord(s, i, i + 24, p, 48);
    GatherLanes(p);
  }

  lemma NextWord(s: seq<bv8>, start: nat, i: nat, p: Lanes, m: int) returns (q: Lanes)
    requires start <= i && i + 4 <= |s| && p.AtMost(m) && m < 120
    requires Total(s[..i]) == Total(s[..start]) + p.Value()
    ensures q.AtMost(m + 8) && q.Word() == Add(p.Word(), Counted(s, i))
    ensures Total(s[..i + 4]) == Total(s[..start]) + q.Value()
  {
    hide Add, Counted, CountedLanes, Total, Lanes.Word, Lanes.Plus, Lanes.Value, Lanes.AtMost;
    CountedWord(s, i);
    q := p.Plus(CountedLanes(s, i));
    LanesPlus(p, CountedLanes(s, i), m, 8);
  }

  /** redisPopcount: the number of set bits, wherever the string starts in memory. */
  method Popcount(s: seq<bv8>, address: nat) returns (bits: nat)
    ensures bits == Count(Bits(s))
  {
    hide Total, Count, Bits, Ones, Lookup, BlockSum, Gather;
    bits := 0;
    var p := 0;
    TotalNone();
    while (address + p) % 4 != 0 && p < |s|
      invariant p <= |s| && bits == Total(s[..p])
      decreases |s| - p
    {
      TableCounts(s[p]);
      TotalNext(s, p);
      bits := bits + Lookup(s[p]);
      p := p + 1;
    }
    while |s| - p >= 28
      invariant p <= |s| && bits == Total(s[..p])
    {
      BlockCounts(s, p);
      bits := bits + Gather(BlockSum(s, p)) as int;
      p := p + 28;
    }
    while p < |s|
      invariant p <= |s| && bits == Total(s[..p])
    {
      TableCounts(s[p]);
      TotalNext(s, p);
      bits := bits + Lookup(s[p]);
      p := p + 1;
    }
    assert s[..p] == s;
    TotalCounts(s);
  }

  lemma TotalNone()
    ensures forall s: seq<bv8> :: Total(s[..0]) == 0
  {
  }
}
