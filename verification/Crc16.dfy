/** CRC-16/XMODEM: the table-driven loop computes the remainder of the message, times x^16,
    modulo x^16 + x^12 + x^5 + 1. */
module Crc16 {

  // crc16tab, eight entries a row and eight rows a part

  const TAB0: seq<seq<bv16>> := [
    [0x0000, 0x1021, 0x2042, 0x3063, 0x4084, 0x50a5, 0x60c6, 0x70e7],
    [0x8108, 0x9129, 0xa14a, 0xb16b, 0xc18c, 0xd1ad, 0xe1ce, 0xf1ef],
    [0x1231, 0x0210, 0x3273, 0x2252, 0x52b5, 0x4294, 0x72f7, 0x62d6],
    [0x9339, 0x8318, 0xb37b, 0xa35a, 0xd3bd, 0xc39c, 0xf3ff, 0xe3de],
    [0x2462, 0x3443, 0x0420, 0x1401, 0x64e6, 0x74c7, 0x44a4, 0x5485],
    [0xa56a, 0xb54b, 0x8528, 0x9509, 0xe5ee, 0xf5cf, 0xc5ac, 0xd58d],
    [0x3653, 0x2672, 0x1611, 0x0630, 0x76d7, 0x66f6, 0x5695, 0x46b4],
    [0xb75b, 0xa77a, 0x9719, 0x8738, 0xf7df, 0xe7fe, 0xd79d, 0xc7bc]
  ]

  const TAB1: seq<seq<bv16>> := [
    [0x48c4, 0x58e5, 0x6886, 0x78a7, 0x0840, 0x1861, 0x2802, 0x3823],
    [0xc9cc, 0xd9ed, 0xe98e, 0xf9af, 0x8948, 0x9969, 0xa90a, 0xb92b],
    [0x5af5, 0x4ad4, 0x7ab7, 0x6a96, 0x1a71, 0x0a50, 0x3a33, 0x2a12],
    [0xdbfd, 0xcbdc, 0xfbbf, 0xeb9e, 0x9b79, 0x8b58, 0xbb3b, 0xab1a],
    [0x6ca6, 0x7c87, 0x4ce4, 0x5cc5, 0x2c22, 0x3c03, 0x0c60, 0x1c41],
    [0xedae, 0xfd8f, 0xcdec, 0xddcd, 0xad2a, 0xbd0b, 0x8d68, 0x9d49],
    [0x7e97, 0x6eb6, 0x5ed5, 0x4ef4, 0x3e13, 0x2e32, 0x1e51, 0x0e70],
    [0xff9f, 0xefbe, 0xdfdd, 0xcffc, 0xbf1b, 0xaf3a, 0x9f59, 0x8f78]
  ]

  const TAB2: seq<seq<bv16>> := [
    [0x9188, 0x81a9, 0xb1ca, 0xa1eb, 0xd10c, 0xc12d, 0xf14e, 0xe16f],
    [0x1080, 0x00a1, 0x30c2, 0x20e3, 0x5004, 0x4025, 0x7046, 0x6067],
    [0x83b9, 0x9398, 0xa3fb, 0xb3da, 0xc33d, 0xd31c, 0xe37f, 0xf35e],
    [0x02b1, 0x1290, 0x22f3, 0x32d2, 0x4235, 0x5214, 0x6277, 0x7256],
    [0xb5ea, 0xa5cb, 0x95a8, 0x8589, 0xf56e, 0xe54f, 0xd52c, 0xc50d],
    [0x34e2, 0x24c3, 0x14a0, 0x0481, 0x7466, 0x6447, 0x5424, 0x4405],
    [0xa7db, 0xb7fa, 0x8799, 0x97b8, 0xe75f, 0xf77e, 0xc71d, 0xd73c],
    [0x26d3, 0x36f2, 0x0691, 0x16b0, 0x6657, 0x7676, 0x4615, 0x5634]
  ]

  const TAB3: seq<seq<bv16>> := [
    [0xd94c, 0xc96d, 0xf90e, 0xe92f, 0x99c8, 0x89e9, 0xb98a, 0xa9ab],
    [0x5844, 0x4865, 0x7806, 0x6827, 0x18c0, 0x08e1, 0x3882, 0x28a3],
    [0xcb7d, 0xdb5c, 0xeb3f, 0xfb1e, 0x8bf9, 0x9bd8, 0xabbb, 0xbb9a],
    [0x4a75, 0x5a54, 0x6a37, 0x7a16, 0x0af1, 0x1ad0, 0x2ab3, 0x3a92],
    [0xfd2e, 0xed0f, 0xdd6c, 0xcd4d, 0xbdaa, 0xad8b, 0x9de8, 0x8dc9],
    [0x7c26, 0x6c07, 0x5c64, 0x4c45, 0x3ca2, 0x2c83, 0x1ce0, 0x0cc1],
    [0xef1f, 0xff3e, 0xcf5d, 0xdf7c, 0xaf9b, 0xbfba, 0x8fd9, 0x9ff8],
    [0x6e17, 0x7e36, 0x4e55, 0x5e74, 0x2e93, 0x3eb2, 0x0ed1, 0x1ef0]
  ]

  const CRC16TAB: seq<seq<seq<bv16>>> := [TAB0, TAB1, TAB2, TAB3]

  function Lookup(index: bv16): bv16
    requires index < 256
  {
    assert index >> 6 < 4 && (index >> 3) & 7 < 8 && index & 7 < 8;
    var part := CRC16TAB[(index >> 6) as int];
    part[((index >> 3) & 7) as int][(index & 7) as int]
  }

  function Next(crc: bv16, b: bv8): bv16 {
    (crc << 8) ^ Lookup(((crc >> 8) ^ (b as bv16)) & 0xff)
  }

  /** A negative length is an empty message. */
  method Crc16(buf: seq<bv8>, len: int) returns (crc: bv16)
    requires len <= |buf|
    ensures crc == Crc(buf[..if len > 0 then len else 0])
  {
    hide Serial, Next;
    crc := 0;
    var counter := 0;
    SerialNone();
    while counter < len
      invariant 0 <= counter <= |buf| && (len > 0 ==> counter <= len) && (len <= 0 ==> counter == 0)
      invariant crc == Serial(0, MessageBits(buf[..counter]))
    {
      ByteStep(crc, buf[counter]);
      assert buf[..counter + 1] == buf[..counter] + [buf[counter]];
      MessageBitsAppend(buf[..counter], buf[counter]);
      SerialAppend(0, MessageBits(buf[..counter]), ByteBits(buf[counter]));
      crc := Next(crc, buf[counter]);
      counter := counter + 1;
    }
  }

  // the register, one bit at a time

  /** The polynomial is added when the top bit, shifted out, was one. */
  function Step(crc: bv16): bv16 {
    (crc << 1) ^ ((crc >> 15) * 0x1021)
  }

  function Xor(c: bv16, d: bv16): bv16 {
    c ^ d
  }

  function Double(w: bv16): bv16 {
    w << 1
  }

  function High(w: bv16): bv16 {
    w & 0x8000
  }

  function Top(bit: bool): bv16 {
    if bit then 0x8000 else 0
  }

  /** The register after some more bits of the message. */
  function Serial(crc: bv16, bits: seq<bool>): bv16
    decreases bits
  {
    if bits == [] then crc else Serial(Step(Xor(crc, Top(bits[0]))), bits[1..])
  }

  /** The first `n` bits of a word, most significant first. */
  function Bits(n: nat, w: bv16): (bits: seq<bool>)
    ensures |bits| == n
  {
    if n == 0 then [] else [High(w) != 0] + Bits(n - 1, Double(w))
  }

  function ByteBits(b: bv8): seq<bool> {
    Bits(8, (b as bv16) << 8)
  }

  function MessageBits(message: seq<bv8>): (bits: seq<bool>)
    ensures |bits| == 8 * |message|
  {
    if message == [] then [] else ByteBits(message[0]) + MessageBits(message[1..])
  }

  /** What crc16 returns. */
  function Crc(message: seq<bv8>): bv16 {
    Serial(0, MessageBits(message))
  }

  lemma {:induction false} MessageBitsAppend(message: seq<bv8>, b: bv8)
    ensures MessageBits(message + [b]) == MessageBits(message) + ByteBits(b)
  {
    hide ByteBits;
    if message != [] {
      assert (message + [b])[1..] == message[1..] + [b];
      MessageBitsAppend(message[1..], b);
    } else {
      assert [b][1..] == [];
    }
  }

  lemma SerialNone()
    ensures Serial(0, MessageBits([])) == 0
  {
  }

  lemma {:induction false} SerialAppend(crc: bv16, bits: seq<bool>, more: seq<bool>)
    ensures Serial(crc, bits + more) == Serial(Serial(crc, bits), more)
    decreases bits
  {
    hide Step, Top, Xor;
    if bits != [] {
      assert (bits + more)[1..] == bits[1..] + more;
      SerialAppend(Step(Xor(crc, Top(bits[0]))), bits[1..], more);
    } else {
      assert bits + more == more;
    }
  }

  // shifting a whole word in at once

  function Steps(n: nat, crc: bv16): bv16 {
    if n == 0 then crc else Steps(n - 1, Step(crc))
  }

  function Shifted(n: nat, w: bv16): bv16 {
    if n == 0 then w else Shifted(n - 1, Double(w))
  }

  /** Only the top bit of what is added decides about the polynomial. */
  lemma StepAdds(c: bv16, w: bv16)
    ensures Step(Xor(c, w)) == Xor(Step(Xor(c, High(w))), Double(w))
  {
    var carry := (c ^ w) >> 15;
    assert carry == (c ^ (w & 0x8000)) >> 15;
    assert (c ^ (w & 0x8000)) << 1 == c << 1;
    assert (c ^ w) << 1 == (c << 1) ^ (w << 1);
    SwapTerms(c << 1, w << 1, carry * 0x1021);
  }

  lemma SwapTerms(c: bv16, d: bv16, e: bv16)
    ensures (c ^ d) ^ e == (c ^ e) ^ d
  {
  }

  lemma TopHigh(w: bv16)
    ensures Top(High(w) != 0) == High(w)
  {
  }

  lemma XorZero(c: bv16)
    ensures Xor(c, 0) == c
  {
  }

  /** Feeding the first `n` bits of a word one by one is adding the word and shifting. */
  lemma {:induction false} SerialIsSteps(c: bv16, w: bv16, n: nat)
    ensures Xor(Serial(c, Bits(n, w)), Shifted(n, w)) == Steps(n, Xor(c, w))
    decreases n
  {
    hide Step, Top, Xor, Double, High;
    if n > 0 {
      TopHigh(w);
      StepAdds(c, w);
      SerialIsSteps(Step(Xor(c, High(w))), Double(w), n - 1);
      assert Bits(n, w)[1..] == Bits(n - 1, Double(w));
    }
  }

  // the table

  function Shift8(crc: bv16): bv16 {
    Step(Step(Step(Step(Step(Step(Step(Step(crc))))))))
  }

  function RowOf(first: bv16): seq<bv16> {
    [Shift8(first << 8), Shift8((first + 1) << 8), Shift8((first + 2) << 8), Shift8((first + 3) << 8),
     Shift8((first + 4) << 8), Shift8((first + 5) << 8), Shift8((first + 6) << 8), Shift8((first + 7) << 8)]
  }

  lemma Part0()
    ensures |TAB0| == 8
    ensures TAB0[0] == RowOf(0)
    ensures TAB0[1] == RowOf(8)
    ensures TAB0[2] == RowOf(16)
    ensures TAB0[3] == RowOf(24)
    ensures TAB0[4] == RowOf(32)
    ensures TAB0[5] == RowOf(40)
    ensures TAB0[6] == RowOf(48)
    ensures TAB0[7] == RowOf(56)
  {
  }

  lemma Part1()
    ensures |TAB1| == 8
    ensures TAB1[0] == RowOf(64)
    ensures TAB1[1] == RowOf(72)
    ensures TAB1[2] == RowOf(80)
    ensures TAB1[3] == RowOf(88)
    ensures TAB1[4] == RowOf(96)
    ensures TAB1[5] == RowOf(104)
    ensures TAB1[6] == RowOf(112)
    ensures TAB1[7] == RowOf(120)
  {
  }

  lemma Part2()
    ensures |TAB2| == 8
    ensures TAB2[0] == RowOf(128)
    ensures TAB2[1] == RowOf(136)
    ensures TAB2[2] == RowOf(144)
    ensures TAB2[3] == RowOf(152)
    ensures TAB2[4] == RowOf(160)
    ensures TAB2[5] == RowOf(168)
    ensures TAB2[6] == RowOf(176)
    ensures TAB2[7] == RowOf(184)
  {
  }

  lemma Part3()
    ensures |TAB3| == 8
    ensures TAB3[0] == RowOf(192)
    ensures TAB3[1] == RowOf(200)
    ensures TAB3[2] == RowOf(208)
    ensures TAB3[3] == RowOf(216)
    ensures TAB3[4] == RowOf(224)
    ensures TAB3[5] == RowOf(232)
    ensures TAB3[6] == RowOf(240)
    ensures TAB3[7] == RowOf(248)
  {
  }

  lemma Row(part: bv16, row: bv16)
    requires part < 4 && row < 8
    ensures |CRC16TAB| == 4 && |CRC16TAB[part as int]| == 8
    ensures CRC16TAB[part as int][row as int] == RowOf((part << 6) + (row << 3))
  {
    hide TAB0, TAB1, TAB2, TAB3, RowOf;
    Part0(); Part1(); Part2(); Part3();
  }

  /** Each entry is the register after its index and eight zero bits. */
  lemma TableIsSerial(index: bv16)
    requires index < 256
    ensures Lookup(index) == Shift8(index << 8)
  {
    hide CRC16TAB, Shift8;
    Row(index >> 6, (index >> 3) & 7);
    var first, k := ((index >> 6) << 6) + (((index >> 3) & 7) << 3), index & 7;
    assert k < 8 && first + k == index;
  }

  function Up(w: bv16): bv16 {
    w << 8
  }

  lemma StepsTwice(n: nat, c: bv16)
    ensures Steps(n + 2, c) == Steps(n, Step(Step(c)))
  {
  }

  lemma Steps8(c: bv16)
    ensures Steps(8, c) == Shift8(c)
  {
    hide Step;
    var d := Step(Step(c));
    var e := Step(Step(d));
    StepsTwice(6, c);
    StepsTwice(4, d);
    StepsTwice(2, e);
    StepsTwice(0, Step(Step(e)));
  }

  lemma ShiftedTwice(n: nat, w: bv16)
    ensures Shifted(n + 2, w) == Shifted(n, w << 2)
  {
  }

  lemma Shifted8(w: bv16)
    ensures Shifted(8, w) == Up(w)
  {
    ShiftedTwice(6, w);
    ShiftedTwice(4, w << 2);
    ShiftedTwice(2, w << 4);
    ShiftedTwice(0, w << 6);
  }

  lemma {:induction false} SerialZeros(c: bv16, n: nat)
    ensures Serial(c, seq(n, _ => false)) == Steps(n, c)
    decreases n
  {
    hide Step, Xor;
    if n > 0 {
      XorZero(c);
      assert seq(n, _ => false)[1..] == seq(n - 1, _ => false);
      SerialZeros(Step(c), n - 1);
    }
  }

  lemma ZeroFirst(n: nat, w: bv16)
    requires High(w) == 0 && Bits(n, Double(w)) == seq(n, _ => false)
    ensures Bits(n + 1, w) == seq(n + 1, _ => false)
  {
  }

  lemma HighByteClear(w: bv16)
    requires w < 0x100
    ensures Bits(8, w) == seq(8, _ => false)
  {
    hide High, Double;
    Doubles(w);
    var w1 := Double(w);
    Doubles(w1);
    var w2 := Double(w1);
    Doubles(w2);
    var w3 := Double(w2);
    Doubles(w3);
    var w4 := Double(w3);
    Doubles(w4);
    var w5 := Double(w4);
    Doubles(w5);
    var w6 := Double(w5);
    Doubles(w6);
    var w7 := Double(w6);
    Doubles(w7);
    ZeroFirst(0, w7);
    ZeroFirst(1, w6);
    ZeroFirst(2, w5);
    ZeroFirst(3, w4);
    ZeroFirst(4, w3);
    ZeroFirst(5, w2);
    ZeroFirst(6, w1);
    ZeroFirst(7, w);
  }

  lemma Doubles(w: bv16)
    ensures w < 0x8000 ==> High(w) == 0
    ensures w < 0x4000 ==> Double(w) < 0x8000
    ensures w < 0x2000 ==> Double(w) < 0x4000
    ensures w < 0x1000 ==> Double(w) < 0x2000
    ensures w < 0x800 ==> Double(w) < 0x1000
    ensures w < 0x400 ==> Double(w) < 0x800
    ensures w < 0x200 ==> Double(w) < 0x400
    ensures w < 0x100 ==> Double(w) < 0x200
  {
  }

  lemma SplitWord(crc: bv16, b: bv8, index: bv16)
    requires index == ((crc >> 8) ^ (b as bv16)) & 0xff
    ensures Xor(crc, Up(b as bv16)) == Xor(Up(index), crc & 0xff)
    ensures Up(crc & 0xff) == Up(crc) && Up(Up(b as bv16)) == 0
  {
  }

  lemma XorCommutes(c: bv16, d: bv16)
    ensures Xor(c, d) == Xor(d, c)
  {
  }

  /** One table lookup does the work of eight bits. */
  lemma ByteStep(crc: bv16, b: bv8)
    ensures Next(crc, b) == Serial(crc, ByteBits(b))
  {
    hide Serial, Bits, Lookup, Shift8, Next, Xor;
    var index := ((crc >> 8) ^ (b as bv16)) & 0xff;
    SplitWord(crc, b, index);
    TableIsSerial(index);
    ByteShifts(crc, Up(b as bv16), Up(index), crc & 0xff);
    NextIs(crc, b, index);
    XorCommutes(Shift8(Up(index)), Up(crc));
  }

  lemma NextIs(crc: bv16, b: bv8, index: bv16)
    requires index == ((crc >> 8) ^ (b as bv16)) & 0xff
    ensures index < 256 && Next(crc, b) == Xor(Up(crc), Lookup(index))
  {
    hide Lookup;
  }

  lemma ByteShifts(crc: bv16, w: bv16, high: bv16, low: bv16)
    requires low < 0x100 && Xor(crc, w) == Xor(high, low) && Up(w) == 0
    ensures Serial(crc, Bits(8, w)) == Xor(Shift8(high), Up(low))
  {
    hide Serial, Bits, Shift8, Steps, Shifted, Xor;
    SerialIsSteps(crc, w, 8);
    Shifted8(w);
    XorZero(Serial(crc, Bits(8, w)));
    SerialIsSteps(high, low, 8);
    HighByteClear(low);
    SerialZeros(high, 8);
    Shifted8(low);
    Steps8(high);
  }
}
