/** BITOP: a bitwise operation over any number of strings, four machine words at a time as
    long as all of them have bytes left, and then byte by byte. */
module BitOp {
  import opened BitString

  datatype Op = And | Or | Xor | Not

  /** What is found under a source key. */
  datatype Key = Missing | Text(bytes: seq<bv8>) | WrongType

  /** What becomes of the target key: an error leaves it alone, a result of no bytes removes
      it. */
  datatype Result = NotNeedsOneKey | TypeError | Deleted | Stored(bytes: seq<bv8>)

  function Apply(op: Op, x: bv8, y: bv8): bv8 {
    match op
    case And => x & y
    case Or => x | y
    case Xor => x ^ y
    case Not => x
  }

  function ApplyWords(op: Op, x: bv64, y: bv64): bv64 {
    match op
    case And => x & y
    case Or => x | y
    case Xor => x ^ y
    case Not => !x
  }

  /** One byte of a source, or of the result of NOT. */
  function ApplyByte(op: Op, x: bv8, y: bv8): bv8 {
    if op == Not then !x else Apply(op, x, y)
  }

  /** Strings are padded with zero bytes on the right. */
  function At(s: seq<bv8>, j: nat): bv8 {
    if j < |s| then s[j] else 0
  }

  /** Byte `j` of the operation over the first `n` sources. */
  function Fold(op: Op, src: seq<seq<bv8>>, n: nat, j: nat): bv8
    requires 0 < n <= |src|
  {
    if n > 1 then Apply(op, Fold(op, src, n - 1, j), At(src[n - 1], j))
    else if op == Not then !At(src[0], j)
    else At(src[0], j)
  }

  function MaxLen(src: seq<seq<bv8>>): (n: nat)
    ensures forall s | s in src :: |s| <= n
    ensures n == 0 || exists s :: s in src && |s| == n
  {
    if src == [] then 0
    else if |src[|src| - 1]| > MaxLen(src[..|src| - 1]) then |src[|src| - 1]|
    else MaxLen(src[..|src| - 1])
  }

  function BitOpOf(op: Op, src: seq<seq<bv8>>): seq<bv8>
    requires src != []
  {
    seq(MaxLen(src), j requires 0 <= j => Fold(op, src, |src|, j))
  }

  function Bytes(key: Key): seq<bv8> {
    if key.Text? then key.bytes else []
  }

  function Sources(keys: seq<Key>): seq<seq<bv8>> {
    seq(|keys|, i requires 0 <= i < |keys| => Bytes(keys[i]))
  }

  // what the operation means, bit by bit

  /** How many of the first `n` sources have the bit set. */
  function SetIn(src: seq<seq<bv8>>, n: nat, k: nat): (count: nat)
    requires n <= |src|
    ensures count <= n
  {
    if n == 0 then 0 else SetIn(src, n - 1, k) + if GetBit(src[n - 1], k) then 1 else 0
  }

  predicate Wanted(op: Op, count: nat, n: nat) {
    match op
    case And => count == n
    case Or => count > 0
    case Xor => count % 2 == 1
    case Not => count == 0
  }

  lemma ApplyHas(op: Op, x: bv8, y: bv8, mask: bv8)
    requires mask in {0x80, 0x40, 0x20, 0x10, 8, 4, 2, 1}
    ensures op == And ==> Has(Apply(op, x, y), mask) == (Has(x, mask) && Has(y, mask))
    ensures op == Or ==> Has(Apply(op, x, y), mask) == (Has(x, mask) || Has(y, mask))
    ensures op == Xor ==> Has(Apply(op, x, y), mask) == (Has(x, mask) != Has(y, mask))
    ensures Has(!x, mask) == !Has(x, mask)
  {
  }

  lemma {:induction false} FoldBit(op: Op, src: seq<seq<bv8>>, n: nat, k: nat)
    requires 0 < n <= |src| && (op == Not ==> n == 1)
    ensures Has(Fold(op, src, n, k / 8), Mask(k % 8)) == Wanted(op, SetIn(src, n, k), n)
    decreases n
  {
    hide Has, Apply;
    var mask := Mask(k % 8);
    AtBit(src[n - 1], k);
    if n > 1 {
      FoldBit(op, src, n - 1, k);
      ApplyHas(op, Fold(op, src, n - 1, k / 8), At(src[n - 1], k / 8), mask);
    } else {
      assert SetIn(src, 0, k) == 0;
      ApplyHas(op, At(src[0], k / 8), 0, mask);
    }
  }

  lemma AtBit(s: seq<bv8>, k: nat)
    ensures Has(At(s, k / 8), Mask(k % 8)) == GetBit(s, k)
  {
  }

  /** Each bit of the result is the operation over the same bit of all the sources, where
      bits past the end of a source are clear. */
  lemma BitOpBits(op: Op, src: seq<seq<bv8>>, k: nat)
    requires src != [] && (op == Not ==> |src| == 1) && k < 8 * MaxLen(src)
    ensures GetBit(BitOpOf(op, src), k) == Wanted(op, SetIn(src, |src|, k), |src|)
  {
    hide Has, Mask;
    FoldBit(op, src, |src|, k);
  }

  // machine words

  function Load(b0: bv8, b1: bv8, b2: bv8, b3: bv8, b4: bv8, b5: bv8, b6: bv8, b7: bv8): bv64 {
    (b0 as bv64) | ((b1 as bv64) << 8) | ((b2 as bv64) << 16) | ((b3 as bv64) << 24)
    | ((b4 as bv64) << 32) | ((b5 as bv64) << 40) | ((b6 as bv64) << 48) | ((b7 as bv64) << 56)
  }

  function Byte0(w: bv64): bv8 { (w & 0xff) as bv8 }
  function Byte1(w: bv64): bv8 { ((w >> 8) & 0xff) as bv8 }
  function Byte2(w: bv64): bv8 { ((w >> 16) & 0xff) as bv8 }
  function Byte3(w: bv64): bv8 { ((w >> 24) & 0xff) as bv8 }
  function Byte4(w: bv64): bv8 { ((w >> 32) & 0xff) as bv8 }
  function Byte5(w: bv64): bv8 { ((w >> 40) & 0xff) as bv8 }
  function Byte6(w: bv64): bv8 { ((w >> 48) & 0xff) as bv8 }
  function Byte7(w: bv64): bv8 { ((w >> 56) & 0xff) as bv8 }

  function Byte(w: bv64, k: nat): bv8
    requires k < 8
  {
    if k == 0 then Byte0(w) else if k == 1 then Byte1(w) else if k == 2 then Byte2(w) else if k == 3 then Byte3(w)
    else if k == 4 then Byte4(w) else if k == 5 then Byte5(w) else if k == 6 then Byte6(w) else Byte7(w)
  }

  function LoadAt(s: seq<bv8>, at: nat): bv64
    requires at + 8 <= |s|
  {
    Load(s[at], s[at + 1], s[at + 2], s[at + 3], s[at + 4], s[at + 5], s[at + 6], s[at + 7])
  }

  lemma BytesOfLoad(b0: bv8, b1: bv8, b2: bv8, b3: bv8, b4: bv8, b5: bv8, b6: bv8, b7: bv8)
    ensures var w := Load(b0, b1, b2, b3, b4, b5, b6, b7);
            && Byte0(w) == b0 && Byte1(w) == b1 && Byte2(w) == b2 && Byte3(w) == b3
            && Byte4(w) == b4 && Byte5(w) == b5 && Byte6(w) == b6 && Byte7(w) == b7
  {
  }

  lemma ByteOfLoad(s: seq<bv8>, at: nat, k: nat)
    requires at + 8 <= |s| && k < 8
    ensures Byte(LoadAt(s, at), k) == s[at + k]
  {
    hide Load, Byte0, Byte1, Byte2, Byte3, Byte4, Byte5, Byte6, Byte7;
    BytesOfLoad(s[at], s[at + 1], s[at + 2], s[at + 3], s[at + 4], s[at + 5], s[at + 6], s[at + 7]);
  }

  lemma BytesAnd(x: bv64, y: bv64)
    ensures Byte0(x & y) == Byte0(x) & Byte0(y)
    ensures Byte1(x & y) == Byte1(x) & Byte1(y)
    ensures Byte2(x & y) == Byte2(x) & Byte2(y)
    ensures Byte3(x & y) == Byte3(x) & Byte3(y)
    ensures Byte4(x & y) == Byte4(x) & Byte4(y)
    ensures Byte5(x & y) == Byte5(x) & Byte5(y)
    ensures Byte6(x & y) == Byte6(x) & Byte6(y)
    ensures Byte7(x & y) == Byte7(x) & Byte7(y)
  {
  }

  lemma BytesOfAnd(x: bv64, y: bv64)
    ensures Byte0(ApplyWords(And, x, y)) == ApplyByte(And, Byte0(x), Byte0(y))
    ensures Byte1(ApplyWords(And, x, y)) == ApplyByte(And, Byte1(x), Byte1(y))
    ensures Byte2(ApplyWords(And, x, y)) == ApplyByte(And, Byte2(x), Byte2(y))
    ensures Byte3(ApplyWords(And, x, y)) == ApplyByte(And, Byte3(x), Byte3(y))
    ensures Byte4(ApplyWords(And, x, y)) == ApplyByte(And, Byte4(x), Byte4(y))
    ensures Byte5(ApplyWords(And, x, y)) == ApplyByte(And, Byte5(x), Byte5(y))
    ensures Byte6(ApplyWords(And, x, y)) == ApplyByte(And, Byte6(x), Byte6(y))
    ensures Byte7(ApplyWords(And, x, y)) == ApplyByte(And, Byte7(x), Byte7(y))
  {
    hide Byte0, Byte1, Byte2, Byte3, Byte4, Byte5, Byte6, Byte7;
    BytesAnd(x, y);
  }

  lemma BytesOr(x: bv64, y: bv64)
    ensures Byte0(x | y) == Byte0(x) | Byte0(y)
    ensures Byte1(x | y) == Byte1(x) | Byte1(y)
    ensures Byte2(x | y) == Byte2(x) | Byte2(y)
    ensures Byte3(x | y) == Byte3(x) | Byte3(y)
    ensures Byte4(x | y) == Byte4(x) | Byte4(y)
    ensures Byte5(x | y) == Byte5(x) | Byte5(y)
    ensures Byte6(x | y) == Byte6(x) | Byte6(y)
    ensures Byte7(x | y) == Byte7(x) | Byte7(y)
  {
  }

  lemma BytesOfOr(x: bv64, y: bv64)
    ensures Byte0(ApplyWords(Or, x, y)) == ApplyByte(Or, Byte0(x), Byte0(y))
    ensures Byte1(ApplyWords(Or, x, y)) == ApplyByte(Or, Byte1(x), Byte1(y))
    ensures Byte2(ApplyWords(Or, x, y)) == ApplyByte(Or, Byte2(x), Byte2(y))
    ensures Byte3(ApplyWords(Or, x, y)) == ApplyByte(Or, Byte3(x), Byte3(y))
    ensures Byte4(ApplyWords(Or, x, y)) == ApplyByte(Or, Byte4(x), Byte4(y))
    ensures Byte5(ApplyWords(Or, x, y)) == ApplyByte(Or, Byte5(x), Byte5(y))
    ensures Byte6(ApplyWords(Or, x, y)) == ApplyByte(Or, Byte6(x), Byte6(y))
    ensures Byte7(ApplyWords(Or, x, y)) == ApplyByte(Or, Byte7(x), Byte7(y))
  {
    hide Byte0, Byte1, Byte2, Byte3, Byte4, Byte5, Byte6, Byte7;
    BytesOr(x, y);
  }

  lemma BytesXor(x: bv64, y: bv64)
    ensures Byte0(x ^ y) == Byte0(x) ^ Byte0(y)
    ensures Byte1(x ^ y) == Byte1(x) ^ Byte1(y)
    ensures Byte2(x ^ y) == Byte2(x) ^ Byte2(y)
    ensures Byte3(x ^ y) == Byte3(x) ^ Byte3(y)
    ensures Byte4(x ^ y) == Byte4(x) ^ Byte4(y)
    ensures Byte5(x ^ y) == Byte5(x) ^ Byte5(y)
    ensures Byte6(x ^ y) == Byte6(x) ^ Byte6(y)
    ensures Byte7(x ^ y) == Byte7(x) ^ Byte7(y)
  {
  }

  lemma BytesOfXor(x: bv64, y: bv64)
    ensures Byte0(ApplyWords(Xor, x, y)) == ApplyByte(Xor, Byte0(x), Byte0(y))
    ensures Byte1(ApplyWords(Xor, x, y)) == ApplyByte(Xor, Byte1(x), Byte1(y))
    ensures Byte2(ApplyWords(Xor, x, y)) == ApplyByte(Xor, Byte2(x), Byte2(y))
    ensures Byte3(ApplyWords(Xor, x, y)) == ApplyByte(Xor, Byte3(x), Byte3(y))
    ensures Byte4(ApplyWords(Xor, x, y)) == ApplyByte(Xor, Byte4(x), Byte4(y))
    ensures Byte5(ApplyWords(Xor, x, y)) == ApplyByte(Xor, Byte5(x), Byte5(y))
    ensures Byte6(ApplyWords(Xor, x, y)) == ApplyByte(Xor, Byte6(x), Byte6(y))
    ensures Byte7(ApplyWords(Xor, x, y)) == ApplyByte(Xor, Byte7(x), Byte7(y))
  {
    hide Byte0, Byte1, Byte2, Byte3, Byte4, Byte5, Byte6, Byte7;
    BytesXor(x, y);
  }

  lemma BytesNot(x: bv64, y: bv64)
    ensures Byte0(!x) == !Byte0(x)
    ensures Byte1(!x) == !Byte1(x)
    ensures Byte2(!x) == !Byte2(x)
    ensures Byte3(!x) == !Byte3(x)
    ensures Byte4(!x) == !Byte4(x)
    ensures Byte5(!x) == !Byte5(x)
    ensures Byte6(!x) == !Byte6(x)
    ensures Byte7(!x) == !Byte7(x)
  {
  }

  lemma BytesOfNot(x: bv64, y: bv64)
    ensures Byte0(ApplyWords(Not, x, y)) == ApplyByte(Not, Byte0(x), Byte0(y))
    ensures Byte1(ApplyWords(Not, x, y)) == ApplyByte(Not, Byte1(x), Byte1(y))
    ensures Byte2(ApplyWords(Not, x, y)) == ApplyByte(Not, Byte2(x), Byte2(y))
    ensures Byte3(ApplyWords(Not, x, y)) == ApplyByte(Not, Byte3(x), Byte3(y))
    ensures Byte4(ApplyWords(Not, x, y)) == ApplyByte(Not, Byte4(x), Byte4(y))
    ensures Byte5(ApplyWords(Not, x, y)) == ApplyByte(Not, Byte5(x), Byte5(y))
    ensures Byte6(ApplyWords(Not, x, y)) == ApplyByte(Not, Byte6(x), Byte6(y))
    ensures Byte7(ApplyWords(Not, x, y)) == ApplyByte(Not, Byte7(x), Byte7(y))
  {
    hide Byte0, Byte1, Byte2, Byte3, Byte4, Byte5, Byte6, Byte7;
    BytesNot(x, y);
  }

  lemma ByteOfOp(op: Op, x: bv64, y: bv64, k: nat)
    requires k < 8
    ensures Byte(ApplyWords(op, x, y), k) == ApplyByte(op, Byte(x, k), Byte(y, k))
  {
    hide Byte0, Byte1, Byte2, Byte3, Byte4, Byte5, Byte6, Byte7, ApplyWords, ApplyByte;
    match op
    case And => BytesOfAnd(x, y);
    case Or => BytesOfOr(x, y);
    case Xor => BytesOfXor(x, y);
    case Not => BytesOfNot(x, y);
  }

  /** lres[i] op= lp[i], for the word that starts at byte `at`. */
  method ApplyWord(op: Op, res: array<bv8>, src: seq<bv8>, at: nat)
    requires at + 8 <= res.Length && at + 8 <= |src|
    modifies res
    ensures forall t | 0 <= t < res.Length ::
              res[t] == if at <= t < at + 8 then ApplyByte(op, old(res[t]), src[t]) else old(res[t])
  {
    hide Byte, LoadAt, ApplyWords, Apply;
    ghost var was := res[..];
    var x, y := LoadAt(res[..], at), LoadAt(src, at);
    var w := ApplyWords(op, x, y);
    for k := 0 to 8
      invariant forall t | 0 <= t < res.Length ::
                  res[t] == if at <= t < at + k then ApplyByte(op, was[t], src[t]) else was[t]
    {
      ByteOfOp(op, x, y, k);
      ByteOfLoad(was, at, k);
      ByteOfLoad(src, at, k);
      res[at + k] := Byte(w, k);
    }
  }

  /** Four words. */
  method ApplyFour(op: Op, res: array<bv8>, src: seq<bv8>, at: nat)
    requires at + 32 <= res.Length && at + 32 <= |src|
    modifies res
    ensures forall t | 0 <= t < res.Length ::
              res[t] == if at <= t < at + 32 then ApplyByte(op, old(res[t]), src[t]) else old(res[t])
  {
    hide ApplyByte;
    ApplyWord(op, res, src, at);
    ApplyWord(op, res, src, at + 8);
    ApplyWord(op, res, src, at + 16);
    ApplyWord(op, res, src, at + 24);
  }

  /** The loops over words, which the source writes out once for each operation; for NOT the
      source key is the word itself. */
  method FastPath(op: Op, res: array<bv8>, src: seq<seq<bv8>>, minlen: nat) returns (j: nat)
    requires src != [] && (op == Not ==> |src| == 1)
    requires minlen <= res.Length && forall s | s in src :: minlen <= |s|
    requires forall t | 0 <= t < minlen :: res[t] == src[0][t]
    modifies res
    ensures j <= minlen && forall t | 0 <= t < j :: res[t] == Fold(op, src, |src|, t)
  {
    hide ApplyByte;
    assert src[0] in src;
    j := 0;
    var left := minlen;
    while left >= 32
      invariant j + left == minlen
      invariant forall t | 0 <= t < j :: res[t] == Fold(op, src, |src|, t)
      invariant forall t | j <= t < minlen :: res[t] == src[0][t]
    {
      if op == Not {
        ApplyFour(op, res, src[0], j);
        FoldOne(op, src);
      } else {
        FoldOne(op, src);
        for i := 1 to |src|
          invariant forall t | 0 <= t < j :: res[t] == Fold(op, src, |src|, t)
          invariant forall t | j <= t < j + 32 :: res[t] == Fold(op, src, i, t)
          invariant forall t | j + 32 <= t < minlen :: res[t] == src[0][t]
        {
          assert src[i] in src;
          FoldNext(op, src, i);
          ApplyFour(op, res, src[i], j);
        }
      }
      j := j + 32;
      left := left - 32;
    }
  }

  lemma FoldOne(op: Op, src: seq<seq<bv8>>)
    requires src != []
    ensures forall t: nat | t < |src[0]| ::
              Fold(op, src, 1, t) == if op == Not then ApplyByte(op, src[0][t], src[0][t]) else src[0][t]
  {
  }

  lemma FoldNext(op: Op, src: seq<seq<bv8>>, i: nat)
    requires 0 < i < |src| && op != Not
    ensures forall t: nat | t < |src[i]| :: Fold(op, src, i + 1, t) == ApplyByte(op, Fold(op, src, i, t), src[i][t])
  {
  }

  /** The rest of the bytes. */
  method SlowPath(op: Op, res: array<bv8>, src: seq<seq<bv8>>, start: nat)
    requires src != [] && (op == Not ==> |src| == 1) && start <= res.Length
    requires forall t | 0 <= t < start :: res[t] == Fold(op, src, |src|, t)
    modifies res
    ensures forall t | 0 <= t < res.Length :: res[t] == Fold(op, src, |src|, t)
  {
    hide Apply, At;
    for j := start to res.Length
      invariant forall t | 0 <= t < j :: res[t] == Fold(op, src, |src|, t)
    {
      var output := At(src[0], j);
      if op == Not { output := !output; }
      for i := 1 to |src|
        invariant output == Fold(op, src, i, j)
      {
        output := Apply(op, output, At(src[i], j));
      }
      res[j] := output;
    }
  }

  lemma MaxLenAppend(src: seq<seq<bv8>>, s: seq<bv8>)
    ensures MaxLen(src + [s]) == if |s| > MaxLen(src) then |s| else MaxLen(src)
  {
    assert (src + [s])[..|src|] == src;
  }

  /** The loop over the source keys; a missing key counts as an empty string. */
  method LookUp(keys: seq<Key>) returns (ok: bool, src: seq<seq<bv8>>, maxlen: nat, minlen: nat)
    requires keys != []
    ensures ok == (WrongType !in keys)
    ensures ok ==> src == Sources(keys) && maxlen == MaxLen(src) && forall s | s in src :: minlen <= |s|
  {
    hide MaxLen, Sources;
    src, maxlen, minlen := [], 0, 0;
    MaxLenNone();
    for j := 0 to |keys|
      invariant |src| == j && forall i | 0 <= i < j :: src[i] == Bytes(keys[i]) && keys[i] != WrongType
      invariant maxlen == MaxLen(src) && forall i | 0 <= i < j :: minlen <= |src[i]|
    {
      MaxLenAppend(src, Bytes(keys[j]));
      match keys[j]
      case Missing =>
        minlen := 0;
        src := src + [[]];
      case WrongType =>
        return false, src, maxlen, minlen;
      case Text(bytes) =>
        if |bytes| > maxlen { maxlen := |bytes|; }
        if j == 0 || |bytes| < minlen { minlen := |bytes|; }
        src := src + [bytes];
    }
    AreSources(src, keys);
    ok := true;
  }

  lemma MaxLenNone()
    ensures MaxLen([]) == 0
  {
  }

  lemma AreSources(src: seq<seq<bv8>>, keys: seq<Key>)
    requires |src| == |keys| && forall i | 0 <= i < |keys| :: src[i] == Bytes(keys[i])
    ensures src == Sources(keys)
  {
  }

  /** bitopCommand, once the name of the operation is known. */
  method BitOp(op: Op, keys: seq<Key>) returns (result: Result)
    requires keys != []
    ensures result ==
            if op == Not && |keys| != 1 then NotNeedsOneKey
            else if WrongType in keys then TypeError
            else if MaxLen(Sources(keys)) == 0 then Deleted
            else Stored(BitOpOf(op, Sources(keys)))
  {
    hide Fold, MaxLen;
    if op == Not && |keys| != 1 { return NotNeedsOneKey; }
    var ok, src, maxlen, minlen := LookUp(keys);
    if !ok { return TypeError; }
    if maxlen == 0 { return Deleted; }
    var res := new bv8[maxlen];
    var j := 0;
    if minlen >= 32 && |keys| <= 16 {
      assert src[0] in src;
      forall t | 0 <= t < minlen { res[t] := src[0][t]; }
      j := FastPath(op, res, src, minlen);
    }
    SlowPath(op, res, src, j);
    assert res[..] == BitOpOf(op, src);
    return Stored(res[..]);
  }
}
