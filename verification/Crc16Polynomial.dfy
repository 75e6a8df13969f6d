/** What the CRC means: division of polynomials over the two-element field, and the errors
    it detects. A polynomial is the sequence of its coefficients, highest power first. */
module Crc16Polynomial {
  import opened Crc16

  /** x^16 + x^12 + x^5 + 1 */
  const DIVISOR: seq<bool> := [true, false, false, false, true, false, false, false, false, false, false, true,
                               false, false, false, false, true]

  function Zeros(n: nat): seq<bool> {
    seq(n, _ => false)
  }

  /** Sum, which is also the difference. */
  function Plus(p: seq<bool>, q: seq<bool>): seq<bool>
    requires |p| == |q|
  {
    seq(|p|, i requires 0 <= i < |p| => p[i] != q[i])
  }

  /** The divisor times one coefficient. */
  function Scaled(x: bool): (p: seq<bool>)
    ensures |p| == 17
  {
    if x then DIVISOR else Zeros(17)
  }

  /** The divisor times `q`. */
  function Times(q: seq<bool>): (p: seq<bool>)
    ensures |p| == |q| + 16
  {
    if q == [] then Zeros(16)
    else Plus(Scaled(q[0]) + Zeros(|q| - 1), [false] + Times(q[1..]))
  }

  /** `dividend` is the divisor times `q` plus `r`. */
  ghost predicate Divides(dividend: seq<bool>, q: seq<bool>, r: seq<bool>) {
    |r| == 16 && |dividend| == |q| + 16 && Plus(Times(q), Zeros(|q|) + r) == dividend
  }

  // the register divides

  lemma XorDistributes(c: bv16, d: bv16)
    ensures Double(Xor(c, d)) == Xor(Double(c), Double(d))
    ensures High(Xor(c, d)) != 0 <==> (High(c) != 0) != (High(d) != 0)
  {
    assert (High(c) == 0 || High(c) == 0x8000) && (High(d) == 0 || High(d) == 0x8000);
  }

  lemma {:induction false} BitsXor(n: nat, c: bv16, d: bv16)
    ensures Bits(n, Xor(c, d)) == Plus(Bits(n, c), Bits(n, d))
    decreases n
  {
    hide High, Double, Xor;
    if n > 0 {
      XorDistributes(c, d);
      BitsXor(n - 1, Double(c), Double(d));
    }
  }

  lemma {:induction false} BitsSplit(m: nat, n: nat, w: bv16)
    ensures Bits(m + n, w) == Bits(m, w) + Bits(n, Shifted(m, w))
    decreases m
  {
    hide High, Double;
    if m > 0 { BitsSplit(m - 1, n, Double(w)); }
  }

  lemma {:induction false} BitsZero(n: nat)
    ensures Bits(n, 0) == Zeros(n)
  {
    if n > 0 { BitsZero(n - 1); }
  }

  lemma BitsDouble(w: bv16)
    ensures Bits(16, Double(w)) == Bits(16, w)[1..] + [false]
    ensures Bits(16, w)[0] == (High(w) != 0)
  {
    hide High, Double, Bits, Shifted;
    BitsSplit(16, 1, w);
    ShiftedOut(w);
    LastBit();
    BitsNext(16, w);
    BitsNext(15, w);
    var bits := Bits(17, w);
    assert bits[1..] == Bits(16, Double(w)) && bits[0] == (High(w) != 0);
    assert bits == Bits(16, w) + [false];
  }

  lemma LastBit()
    ensures Bits(1, 0) == [false]
  {
    BitsZero(1);
  }

  lemma FourBits(w: bv16, x: bv16, y: bv16, z: bv16)
    requires x == Double(w) && y == Double(x) && z == Double(y)
    ensures Bits(4, w) == [High(w) != 0, High(x) != 0, High(y) != 0, High(z) != 0]
    ensures Shifted(4, w) == Double(z)
  {
    hide High, Double, Bits;
    FourShifts(w, x, y, z);
    BitsNext(3, w);
    BitsNext(2, x);
    BitsNext(1, y);
    BitsNext(0, z);
    assert Bits(0, Double(z)) == [];
  }

  lemma BitsNext(n: nat, w: bv16)
    ensures Bits(n + 1, w) == [High(w) != 0] + Bits(n, Double(w))
  {
  }

  lemma FourShifts(w: bv16, x: bv16, y: bv16, z: bv16)
    requires x == Double(w) && y == Double(x) && z == Double(y)
    ensures Shifted(4, w) == Double(z)
  {
    hide Double;
    assert Shifted(4, w) == Shifted(3, x);
    assert Shifted(3, x) == Shifted(2, y);
    assert Shifted(2, y) == Shifted(1, z) == Shifted(0, Double(z));
  }

  lemma Constants()
    ensures Bits(16, 0x1021) == DIVISOR[1..] && Bits(16, 0x8000) == [true] + Zeros(15)
  {
    hide Bits, Shifted;
    BitsSplit(4, 12, 0x1021);
    FourBits(0x1021, 0x2042, 0x4084, 0x8108);
    BitsSplit(4, 8, 0x210);
    FourBits(0x210, 0x420, 0x840, 0x1080);
    BitsSplit(4, 4, 0x2100);
    FourBits(0x2100, 0x4200, 0x8400, 0x800);
    FourBits(0x1000, 0x2000, 0x4000, 0x8000);
    BitsSplit(4, 12, 0x8000);
    FourBits(0x8000, 0x0, 0x0, 0x0);
    BitsZero(12);
  }

  /** The register is shifted up, and the divisor without its first coefficient is added
      when a one was shifted out. */
  lemma StepBits(c: bv16)
    ensures Bits(16, Step(c)) == Plus(Bits(16, c)[1..] + [false], Scaled(Bits(16, c)[0])[1..])
  {
    hide Xor, Double, High, Step, Bits, DIVISOR;
    StepXor(c);
    BitsDouble(c);
    BitsXor(16, Double(c), Carry(c));
    Constants();
    BitsZero(16);
  }

  function Carry(c: bv16): bv16 {
    if High(c) != 0 then 0x1021 else 0
  }

  lemma StepXor(c: bv16)
    ensures Step(c) == Xor(Double(c), Carry(c))
  {
    assert c >> 15 == 0 || c >> 15 == 1;
  }

  lemma TopBits(c: bv16, b: bool)
    ensures Bits(16, Xor(c, Top(b))) == [Bits(16, c)[0] != b] + Bits(16, c)[1..]
  {
    hide Xor, Bits;
    BitsXor(16, c, Top(b));
    Constants();
    BitsZero(16);
  }

  /** The coefficients of the quotient, as the register finds them. */
  function Quotient(crc: bv16, bits: seq<bool>): (q: seq<bool>)
    ensures |q| == |bits|
    decreases bits
  {
    if bits == [] then []
    else [Bits(16, crc)[0] != bits[0]] + Quotient(Step(Xor(crc, Top(bits[0]))), bits[1..])
  }

  /** The register's start and the message, times x^16. */
  function Dividend(register: seq<bool>, bits: seq<bool>): (p: seq<bool>)
    requires |register| == 16
    ensures |p| == |bits| + 16
  {
    Plus(register + Zeros(|bits|), bits + Zeros(16))
  }

  lemma {:induction false} RegisterDivides(crc: bv16, bits: seq<bool>)
    ensures Divides(Dividend(Bits(16, crc), bits), Quotient(crc, bits), Bits(16, Serial(crc, bits)))
    decreases bits
  {
    hide Bits, Step, Top, Xor, DIVISOR, Dividend, Divides, Scaled;
    if bits == [] {
      DividesNothing(Bits(16, crc));
    } else {
      var next := Step(Xor(crc, Top(bits[0])));
      RegisterDivides(next, bits[1..]);
      TopBits(crc, bits[0]);
      StepBits(Xor(crc, Top(bits[0])));
      var x := Bits(16, crc)[0] != bits[0];
      assert ([x] + Bits(16, crc)[1..])[1..] == Bits(16, crc)[1..];
      OneRound(Bits(16, crc), Bits(16, next), bits, Quotient(next, bits[1..]), Bits(16, Serial(next, bits[1..])));
    }
  }

  lemma DividesNothing(register: seq<bool>)
    requires |register| == 16
    ensures Divides(Dividend(register, []), [], register)
  {
    assert Plus(Times([]), Zeros(0) + register) == Dividend(register, []);
  }

  lemma OneRound(register: seq<bool>, next: seq<bool>, bits: seq<bool>, q: seq<bool>, r: seq<bool>)
    requires bits != [] && |register| == 16
    requires next == Plus(register[1..] + [false], Scaled(register[0] != bits[0])[1..])
    requires Divides(Dividend(next, bits[1..]), q, r)
    ensures Divides(Dividend(register, bits), [register[0] != bits[0]] + q, r)
  {
    hide Times, Scaled;
    var x, n := register[0] != bits[0], |bits|;
    TimesCons(x, q);
    LeadingCoefficient(x);
    var product, dividend := Plus(Times([x] + q), Zeros(n) + r), Dividend(register, bits);
    forall i | 0 <= i < n + 16 ensures product[i] == dividend[i] {
      if i > 0 { assert Plus(Times(q), Zeros(n - 1) + r)[i - 1] == Dividend(next, bits[1..])[i - 1]; }
    }
    assert product == dividend;
  }

  lemma TimesCons(x: bool, q: seq<bool>)
    ensures Times([x] + q) == Plus(Scaled(x) + Zeros(|q|), [false] + Times(q))
  {
    assert ([x] + q)[1..] == q;
  }

  lemma LeadingCoefficient(x: bool)
    ensures Scaled(x)[0] == x
  {
  }

  // quotient and remainder are unique

  lemma {:induction false} DivisionUnique(dividend: seq<bool>, q: seq<bool>, r: seq<bool>, q': seq<bool>, r': seq<bool>)
    requires Divides(dividend, q, r) && Divides(dividend, q', r')
    ensures q == q' && r == r'
    decreases q
  {
    hide DIVISOR, Times, Scaled;
    if q == [] {
      NothingTimes();
      forall i | 0 <= i < 16 ensures r[i] == r'[i] {
        assert Plus(Times([]), Zeros(0) + r)[i] == dividend[i];
        assert Plus(Times([]), Zeros(0) + r')[i] == dividend[i];
      }
      assert q' == [];
    } else {
      var n := |q|;
      assert q == [q[0]] + q[1..] && q' == [q'[0]] + q'[1..];
      TimesCons(q[0], q[1..]);
      TimesCons(q'[0], q'[1..]);
      LeadingCoefficient(q[0]);
      LeadingCoefficient(q'[0]);
      assert Plus(Times(q), Zeros(n) + r)[0] == dividend[0] == Plus(Times(q'), Zeros(n) + r')[0];
      assert q[0] == q'[0];
      var rest := Plus(Times(q[1..]), Zeros(n - 1) + r);
      forall i | 0 <= i < n + 15 ensures Plus(Times(q'[1..]), Zeros(n - 1) + r')[i] == rest[i] {
        assert Plus(Times(q), Zeros(n) + r)[i + 1] == dividend[i + 1] == Plus(Times(q'), Zeros(n) + r')[i + 1];
      }
      assert Plus(Times(q'[1..]), Zeros(n - 1) + r') == rest;
      DivisionUnique(rest, q[1..], r, q'[1..], r');
    }
  }

  lemma NothingTimes()
    ensures Times([]) == Zeros(16)
  {
  }

  lemma StartEmpty(bits: seq<bool>)
    ensures Dividend(Bits(16, 0), bits) == bits + Zeros(16)
  {
    BitsZero(16);
  }

  /** crc16 is the remainder of the message, times x^16: there is a quotient, and no other
      quotient and remainder will do. */
  lemma CrcIsRemainder(message: seq<bv8>)
    ensures exists q :: Divides(MessageBits(message) + Zeros(16), q, Bits(16, Crc(message)))
    ensures forall q, r :: Divides(MessageBits(message) + Zeros(16), q, r) ==> r == Bits(16, Crc(message))
  {
    hide Bits, Divides;
    var dividend := MessageBits(message) + Zeros(16);
    RegisterDivides(0, MessageBits(message));
    StartEmpty(MessageBits(message));
    forall q, r | Divides(dividend, q, r) ensures r == Bits(16, Crc(message)) {
      DivisionUnique(dividend, q, r, Quotient(0, MessageBits(message)), Bits(16, Crc(message)));
    }
  }

  // errors

  lemma {:induction false} TimesPlus(q: seq<bool>, q': seq<bool>)
    requires |q| == |q'|
    ensures Times(Plus(q, q')) == Plus(Times(q), Times(q'))
    decreases q
  {
    hide DIVISOR;
    if q != [] {
      TimesPlus(q[1..], q'[1..]);
      assert Plus(q, q')[1..] == Plus(q[1..], q'[1..]);
    }
  }

  /** What differs between two messages goes unnoticed exactly when it is a multiple of the
      divisor. */
  lemma CollideIff(a: seq<bv8>, b: seq<bv8>)
    requires |a| == |b|
    ensures Crc(a) == Crc(b) <==>
            exists q :: |q| == 8 * |a| && Times(q) == Plus(MessageBits(a), MessageBits(b)) + Zeros(16)
  {
    hide Bits, Times;
    var n := 8 * |a|;
    var p, s := MessageBits(a) + Zeros(16), MessageBits(b) + Zeros(16);
    var q, q' := Quotient(0, MessageBits(a)), Quotient(0, MessageBits(b));
    RegisterDivides(0, MessageBits(a));
    RegisterDivides(0, MessageBits(b));
    StartEmpty(MessageBits(a));
    StartEmpty(MessageBits(b));
    assert Plus(p, s) == Plus(MessageBits(a), MessageBits(b)) + Zeros(16);
    if Crc(a) == Crc(b) {
      TimesPlus(q, q');
      Cancels(Times(q), Times(q'), Zeros(n) + Bits(16, Crc(a)));
    }
    if e: seq<bool> :| |e| == n && Times(e) == Plus(p, s) {
      TimesPlus(q, e);
      var r := Zeros(n) + Bits(16, Crc(a));
      Regroups(Times(q), Times(e), r, s);
      assert Divides(s, Plus(q, e), Bits(16, Crc(a)));
      DivisionUnique(s, Plus(q, e), Bits(16, Crc(a)), q', Bits(16, Crc(b)));
      BitsInjective(Crc(a), Crc(b));
    }
  }

  lemma Cancels(p: seq<bool>, q: seq<bool>, r: seq<bool>)
    requires |p| == |q| == |r|
    ensures Plus(Plus(p, r), Plus(q, r)) == Plus(p, q)
  {
  }

  lemma Regroups(p: seq<bool>, e: seq<bool>, r: seq<bool>, s: seq<bool>)
    requires |p| == |e| == |r| == |s| && e == Plus(Plus(p, r), s)
    ensures Plus(Plus(p, e), r) == s
  {
  }

  lemma BitsInjective(c: bv16, d: bv16)
    ensures Bits(16, c) == Bits(16, d) ==> c == d
  {
    hide Bits, Serial;
    if Bits(16, c) == Bits(16, d) { WindowInjective(0, c, d); }
  }

  lemma StepInjective(c: bv16, d: bv16)
    requires Step(c) == Step(d)
    ensures c == d
  {
  }

  lemma {:induction false} StepsInjective(n: nat, c: bv16, d: bv16)
    requires Steps(n, c) == Steps(n, d)
    ensures c == d
    decreases n
  {
    hide Step;
    if n > 0 {
      StepsInjective(n - 1, Step(c), Step(d));
      StepInjective(c, d);
    }
  }

  lemma XorInjective(c: bv16, d: bv16, e: bv16)
    requires Xor(c, e) == Xor(d, e) || Xor(e, c) == Xor(e, d)
    ensures c == d
  {
  }

  /** Equal bits cannot bring different registers together. */
  lemma {:induction false} SerialInjective(c: bv16, d: bv16, bits: seq<bool>)
    requires Serial(c, bits) == Serial(d, bits)
    ensures c == d
    decreases bits
  {
    hide Step, Xor, Top;
    if bits != [] {
      SerialInjective(Step(Xor(c, Top(bits[0]))), Step(Xor(d, Top(bits[0]))), bits[1..]);
      StepInjective(Xor(c, Top(bits[0])), Xor(d, Top(bits[0])));
      XorInjective(c, d, Top(bits[0]));
    }
  }

  /** Different windows of sixteen bits always set the same register apart. */
  lemma WindowInjective(c: bv16, v: bv16, w: bv16)
    requires Serial(c, Bits(16, v)) == Serial(c, Bits(16, w))
    ensures v == w
  {
    hide Bits, Serial, Xor, Steps, Shifted;
    SerialIsSteps(c, v, 16);
    SerialIsSteps(c, w, 16);
    ShiftedOut(v);
    ShiftedOut(w);
    StepsInjective(16, Xor(c, v), Xor(c, w));
    XorInjective(v, w, c);
  }

  lemma ShiftedOut(w: bv16)
    ensures Shifted(16, w) == 0
  {
    ShiftedMore(w);
    Shifted8(w);
    Shifted8(Shifted(8, w));
  }

  lemma ShiftedMore(w: bv16)
    ensures Shifted(16, w) == Shifted(8, Shifted(8, w))
  {
    ShiftedSum(8, 8, w);
  }

  lemma {:induction false} ShiftedSum(m: nat, n: nat, w: bv16)
    ensures Shifted(m + n, w) == Shifted(n, Shifted(m, w))
    decreases m
  {
    hide Double;
    if m > 0 { ShiftedSum(m - 1, n, Double(w)); }
  }

  /** Two messages that differ, but only within sixteen consecutive bits, have different
      CRCs. */
  lemma BurstDetected(a: seq<bv8>, b: seq<bv8>, before: seq<bool>, v: bv16, w: bv16, after: seq<bool>)
    requires MessageBits(a) == before + Bits(16, v) + after
    requires MessageBits(b) == before + Bits(16, w) + after
    requires v != w
    ensures Crc(a) != Crc(b)
  {
    hide Bits, Serial, MessageBits;
    if Crc(a) == Crc(b) {
      SerialAppend(0, before + Bits(16, v), after);
      SerialAppend(0, before + Bits(16, w), after);
      SerialInjective(Serial(0, before + Bits(16, v)), Serial(0, before + Bits(16, w)), after);
      SerialAppend(0, before, Bits(16, v));
      SerialAppend(0, before, Bits(16, w));
      WindowInjective(Serial(0, before), v, w);
    }
  }

  function Pair(x: bv8, y: bv8): bv16 {
    ((x as bv16) << 8) | (y as bv16)
  }

  lemma PairParts(x: bv8, y: bv8)
    ensures Pair(x, y) == Xor(Up(x as bv16), y as bv16)
    ensures Up(Pair(x, y)) == Up(y as bv16)
    ensures Xor(0, Pair(x, y)) == Pair(x, y)
  {
  }

  lemma PairBits(x: bv8, y: bv8)
    ensures ByteBits(x) + ByteBits(y) == Bits(16, Pair(x, y))
  {
    hide Pair, Xor, Bits;
    PairParts(x, y);
    BitsSplit(8, 8, Pair(x, y));
    Shifted8(Pair(x, y));
    BitsXor(8, Up(x as bv16), y as bv16);
    HighByteClear(y as bv16);
  }

  lemma PairInjective(x: bv8, y: bv8, x': bv8, y': bv8)
    requires Pair(x, y) == Pair(x', y')
    ensures x == x' && y == y'
  {
  }

  lemma {:induction false} MessageBitsJoin(a: seq<bv8>, b: seq<bv8>)
    ensures MessageBits(a + b) == MessageBits(a) + MessageBits(b)
    decreases a
  {
    hide ByteBits;
    if a != [] {
      assert (a + b)[1..] == a[1..] + b;
      MessageBitsJoin(a[1..], b);
    } else {
      assert a + b == b;
    }
  }

  lemma TwoBytes(before: seq<bv8>, x: bv8, y: bv8, after: seq<bv8>)
    ensures MessageBits(before + [x, y] + after) == MessageBits(before) + Bits(16, Pair(x, y)) + MessageBits(after)
  {
    hide Bits, ByteBits;
    MessageBitsJoin(before + [x, y], after);
    MessageBitsJoin(before, [x, y]);
    PairBits(x, y);
    assert [x, y][1..] == [y] && [y][1..] == [];
    assert MessageBits([x, y]) == ByteBits(x) + (ByteBits(y) + []);
  }

  /** In particular when only two adjacent bytes differ. */
  lemma AdjacentBytesDetected(a: seq<bv8>, b: seq<bv8>, k: nat)
    requires |a| == |b| && k + 1 < |a| && a != b
    requires forall i | 0 <= i < |a| && i != k && i != k + 1 :: a[i] == b[i]
    ensures Crc(a) != Crc(b)
  {
    hide Bits, MessageBits, Crc;
    var before, after := a[..k], a[k + 2..];
    assert a == before + [a[k], a[k + 1]] + after;
    assert b == before + [b[k], b[k + 1]] + after;
    TwoBytes(before, a[k], a[k + 1], after);
    TwoBytes(before, b[k], b[k + 1], after);
    if Pair(a[k], a[k + 1]) == Pair(b[k], b[k + 1]) {
      PairInjective(a[k], a[k + 1], b[k], b[k + 1]);
    }
    BurstDetected(a, b, MessageBits(before), Pair(a[k], a[k + 1]), Pair(b[k], b[k + 1]), MessageBits(after));
  }
}
