/** The grammar of mangled names as a context-free grammar with derivation trees, and the
    theorem that the demangler's parsers accept nothing outside it. */
module ManglingGrammar {
  import M = Mangling

  datatype NT =
    | MangledName | Encoding | Name | UnscopedName | UnscopedTemplateName | NestedName | Prefix
    | UnqualifiedName | LocalSourceName | OperatorName | SpecialName | CallOffset | VOffset | CtorDtorName
    | Type | BuiltinType | FunctionType | BareFunctionType | ClassEnumType | ArrayType
    | PointerToMemberType | TemplateParam | TemplateTemplateParam | TemplateArgs | ArgList | TemplateArg
    | Expression | ExprPrimary | LocalName | Discriminator | Substitution

  datatype Lexeme = Number | Float | SeqId | SourceName | Operator | CvQualifiers

  /** A text, one of some characters, a word, or a nonterminal. */
  datatype Symbol = T(text: string) | C(chars: string) | L(lexeme: Lexeme) | N(nt: NT)

  // words

  predicate IsNumber(s: string) {
    s != "" &&
    var digits := if s[0] == 'n' then s[1..] else s;
    digits != "" && forall c | c in digits :: M.IsDigit(c)
  }

  function ValueOf(s: string): int
    requires IsNumber(s)
  {
    if s[0] == 'n' then -M.Decimal(s[1..]) else M.Decimal(s)
  }

  /** A length and that many characters. */
  ghost predicate LengthAndName(s: string, k: nat) {
    k <= |s| && IsNumber(s[..k]) && ValueOf(s[..k]) == |s| - k
  }

  /** What a negative length leaves of its own digits when the code steps back over them; the
      grammar proper has no such names. */
  ghost predicate CutNumber(s: string, rest: string) {
    rest != "" && IsNumber(s + rest) && ValueOf(s + rest) == -|rest|
  }

  ghost predicate Word(lexeme: Lexeme, s: string) {
    match lexeme
    case Number => IsNumber(s)
    case Float => s != "" && forall c | c in s :: M.IsHex(c)
    case SeqId => s != "" && forall c | c in s :: M.IsSeq(c)
    case SourceName => (exists k :: LengthAndName(s, k)) || exists rest :: CutNumber(s, rest)
    case Operator => exists k | 0 <= k < |M.OPERATORS| :: M.OPERATORS[k].0 == s
    case CvQualifiers => s in {"r", "V", "K", "rV", "rK", "VK", "rVK"}
  }

  // productions; <prefix> and <template-prefix> are one, as in the code

  ghost predicate Rule(nt: NT, rhs: seq<Symbol>) {
    match nt
    case MangledName => rhs == [T("_Z"), N(Encoding)]
    case Encoding => rhs in {[N(Name), N(BareFunctionType)], [N(Name)], [N(SpecialName)]}
    case Name => rhs in {[N(NestedName)], [N(UnscopedTemplateName), N(TemplateArgs)], [N(UnscopedName)], [N(LocalName)]}
    case UnscopedName => rhs in {[N(UnqualifiedName)], [T("St"), N(UnqualifiedName)]}
    case UnscopedTemplateName => rhs in {[N(UnscopedName)], [N(Substitution)]}
    case NestedName => rhs in {[T("N"), N(Prefix), T("E")], [T("N"), L(CvQualifiers), N(Prefix), T("E")]}
    case Prefix =>
      rhs in {[], [N(Prefix), N(TemplateParam)], [N(Prefix), N(Substitution)], [N(Prefix), N(UnscopedName)],
              [N(Prefix), N(TemplateArgs)]}
    case UnqualifiedName => rhs in {[N(OperatorName)], [N(CtorDtorName)], [L(SourceName)], [N(LocalSourceName)]}
    case LocalSourceName => rhs in {[T("L"), L(SourceName)], [T("L"), L(SourceName), N(Discriminator)]}
    case OperatorName => rhs in {[L(Operator)], [T("cv"), N(Type)], [T("v"), C("0123456789"), L(SourceName)]}
    case SpecialName =>
      rhs in {[T("T"), C("VTIS"), N(Type)], [T("Tc"), N(CallOffset), N(CallOffset), N(Encoding)],
              [T("GV"), N(Name)], [T("T"), N(CallOffset), N(Encoding)],
              [T("TC"), N(Type), L(Number), T("_"), N(Type)], [T("T"), C("FJ"), N(Type)],
              [T("GR"), N(Name)], [T("GA"), N(Encoding)], [T("T"), C("hv"), N(CallOffset), N(Encoding)]}
    case CallOffset => rhs in {[T("h"), L(Number), T("_")], [T("v"), N(VOffset), T("_")]}
    case VOffset => rhs == [L(Number), T("_"), L(Number)]
    case CtorDtorName => rhs in {[T("C"), C("123")], [T("D"), C("012")]}
    case Type =>
      rhs in {[L(CvQualifiers), N(Type)], [C("OPRCG"), N(Type)], [T("Dp"), N(Type)],
              [T("D"), C("tT"), N(Expression), T("E")], [T("U"), L(SourceName), N(Type)],
              [N(BuiltinType)], [N(FunctionType)], [N(ClassEnumType)], [N(ArrayType)], [N(PointerToMemberType)],
              [N(Substitution)], [N(TemplateTemplateParam), N(TemplateArgs)], [N(TemplateParam)]}
    case BuiltinType => rhs in {[C(M.Keys(M.BUILTIN_TYPES))], [T("u"), L(SourceName)]}
    case FunctionType => rhs in {[T("F"), N(BareFunctionType), T("E")], [T("F"), T("Y"), N(BareFunctionType), T("E")]}
    case BareFunctionType => rhs in {[N(Type)], [N(BareFunctionType), N(Type)]}
    case ClassEnumType => rhs == [N(Name)]
    case ArrayType =>
      rhs in {[T("A"), L(Number), T("_"), N(Type)], [T("A"), T("_"), N(Type)], [T("A"), N(Expression), T("_"), N(Type)]}
    case PointerToMemberType => rhs == [T("M"), N(Type), N(Type)]
    case TemplateParam => rhs in {[T("T_")], [T("T"), L(Number), T("_")]}
    case TemplateTemplateParam => rhs in {[N(TemplateParam)], [N(Substitution)]}
    case TemplateArgs => rhs == [T("I"), N(ArgList), T("E")]
    case ArgList => rhs in {[N(TemplateArg)], [N(ArgList), N(TemplateArg)]}
    case TemplateArg =>
      rhs in {[N(Type)], [N(ExprPrimary)], [T("I"), T("E")], [T("I"), N(ArgList), T("E")], [T("X"), N(Expression), T("E")]}
    case Expression =>
      rhs in {[N(TemplateParam)], [N(ExprPrimary)], [N(OperatorName), N(Expression)],
              [N(OperatorName), N(Expression), N(Expression)],
              [N(OperatorName), N(Expression), N(Expression), N(Expression)], [T("st"), N(Type)],
              [T("sr"), N(Type), N(UnqualifiedName), N(TemplateArgs)], [T("sr"), N(Type), N(UnqualifiedName)]}
    case ExprPrimary =>
      rhs in {[T("L"), N(Type), L(Number), T("E")], [T("L"), N(Type), L(Float), T("E")],
              [T("L"), N(MangledName), T("E")], [T("LZ"), N(Encoding), T("E")]}
    case LocalName =>
      rhs in {[T("Z"), N(Encoding), T("E"), N(Name)], [T("Z"), N(Encoding), T("E"), N(Name), N(Discriminator)],
              [T("Z"), N(Encoding), T("Es")], [T("Z"), N(Encoding), T("Es"), N(Discriminator)]}
    case Discriminator => rhs == [T("_"), L(Number)]
    case Substitution => rhs in {[T("S_")], [T("S"), L(SeqId), T("_")], [T("S"), C(M.Keys(M.SUBSTITUTIONS))]}
  }

  // derivation trees

  datatype Tree = Leaf(symbol: Symbol, text: string) | Node(nt: NT, kids: seq<Tree>)

  function Root(t: Tree): Symbol {
    if t.Leaf? then t.symbol else N(t.nt)
  }

  function Roots(ts: seq<Tree>): seq<Symbol> {
    if ts == [] then [] else [Root(ts[0])] + Roots(ts[1..])
  }

  ghost predicate Derivation(t: Tree) {
    match t
    case Leaf(T(text), s) => s == text
    case Leaf(C(chars), s) => |s| == 1 && s[0] in chars
    case Leaf(L(lexeme), s) => Word(lexeme, s)
    case Leaf(N(_), _) => false
    case Node(nt, kids) => Rule(nt, Roots(kids)) && forall kid | kid in kids :: Derivation(kid)
  }

  function Yield(t: Tree): string {
    match t
    case Leaf(_, s) => s
    case Node(_, kids) => YieldAll(kids)
  }

  function YieldAll(ts: seq<Tree>): string {
    if ts == [] then "" else Yield(ts[0]) + YieldAll(ts[1..])
  }

  /** The part of `m` from `i` to `j` derives from `symbol`. */
  ghost predicate Derives(symbol: Symbol, m: string, i: nat, j: nat) {
    i <= j <= |m| && exists t :: Derivation(t) && Root(t) == symbol && Yield(t) == m[i..j]
  }

  /** A parser is sound: what it consumes derives from its symbol. */
  ghost predicate Sound(symbol: Symbol, m: string, i: nat, p: M.Parse) {
    p.At? ==> Derives(symbol, m, i, p.next)
  }

  lemma LeafDerives(symbol: Symbol, m: string, i: nat, j: nat)
    requires i <= j <= |m| && Derivation(Leaf(symbol, m[i..j]))
    ensures Derives(symbol, m, i, j)
  {
    var t := Leaf(symbol, m[i..j]);
    assert Root(t) == symbol && Yield(t) == m[i..j];
  }

  /** The parts of `m` between the positions derive from the symbols. */
  ghost predicate DerivesAll(symbols: seq<Symbol>, m: string, at: seq<nat>) {
    |at| == |symbols| + 1 && forall k | 0 <= k < |symbols| :: Derives(symbols[k], m, at[k], at[k + 1])
  }

  lemma {:induction false} Assemble(symbols: seq<Symbol>, m: string, at: seq<nat>) returns (kids: seq<Tree>)
    requires DerivesAll(symbols, m, at) && at[0] <= |m|
    ensures Roots(kids) == symbols && at[0] <= at[|symbols|] <= |m| && YieldAll(kids) == m[at[0]..at[|symbols|]]
    ensures forall kid | kid in kids :: Derivation(kid)
  {
    if symbols == [] {
      kids := [];
    } else {
      assert Derives(symbols[0], m, at[0], at[1]);
      var t :| Derivation(t) && Root(t) == symbols[0] && Yield(t) == m[at[0]..at[1]];
      assert DerivesAll(symbols[1..], m, at[1..]) by {
        forall k | 0 <= k < |symbols| - 1 ensures Derives(symbols[1..][k], m, at[1..][k], at[1..][k + 1]) {
          assert Derives(symbols[k + 1], m, at[k + 1], at[k + 2]);
        }
      }
      var rest := Assemble(symbols[1..], m, at[1..]);
      kids := [t] + rest;
      assert kids[1..] == rest;
      assert m[at[0]..at[|symbols|]] == m[at[0]..at[1]] + m[at[1]..at[|symbols|]];
      assert symbols == [symbols[0]] + symbols[1..];
    }
  }

  lemma Apply(nt: NT, symbols: seq<Symbol>, m: string, at: seq<nat>)
    requires Rule(nt, symbols) && DerivesAll(symbols, m, at) && at[0] <= |m|
    ensures Derives(N(nt), m, at[0], at[|symbols|])
  {
    hide Rule;
    var kids := Assemble(symbols, m, at);
    var t := Node(nt, kids);
    assert Derivation(t) && Root(t) == N(nt) && Yield(t) == m[at[0]..at[|symbols|]];
  }

  lemma Apply1(nt: NT, a: Symbol, m: string, i: nat, j: nat)
    requires Rule(nt, [a])
    requires Derives(a, m, i, j)
    ensures Derives(N(nt), m, i, j)
  {
    hide Rule, Derives;
    InRange(a, m, i, j);
    Apply(nt, [a], m, [i, j]);
  }

  lemma Apply2(nt: NT, a: Symbol, b: Symbol, m: string, i: nat, j: nat, k: nat)
    requires Rule(nt, [a, b])
    requires Derives(a, m, i, j) && Derives(b, m, j, k)
    ensures Derives(N(nt), m, i, k)
  {
    hide Rule, Derives;
    InRange(a, m, i, j);
    Apply(nt, [a, b], m, [i, j, k]);
  }

  lemma Apply3(nt: NT, a: Symbol, b: Symbol, c: Symbol, m: string, i: nat, j: nat, k: nat, l: nat)
    requires Rule(nt, [a, b, c])
    requires Derives(a, m, i, j) && Derives(b, m, j, k) && Derives(c, m, k, l)
    ensures Derives(N(nt), m, i, l)
  {
    hide Rule, Derives;
    InRange(a, m, i, j);
    Apply(nt, [a, b, c], m, [i, j, k, l]);
  }

  lemma Apply4(nt: NT, a: Symbol, b: Symbol, c: Symbol, d: Symbol, m: string, i: nat, j: nat, k: nat, l: nat, o: nat)
    requires Rule(nt, [a, b, c, d])
    requires Derives(a, m, i, j) && Derives(b, m, j, k) && Derives(c, m, k, l) && Derives(d, m, l, o)
    ensures Derives(N(nt), m, i, o)
  {
    hide Rule, Derives;
    InRange(a, m, i, j);
    Apply(nt, [a, b, c, d], m, [i, j, k, l, o]);
  }

  lemma Apply5(nt: NT, a: Symbol, b: Symbol, c: Symbol, d: Symbol, e: Symbol, m: string, i: nat, j: nat, k: nat, l: nat, o: nat, p: nat)
    requires Rule(nt, [a, b, c, d, e])
    requires Derives(a, m, i, j) && Derives(b, m, j, k) && Derives(c, m, k, l) && Derives(d, m, l, o) && Derives(e, m, o, p)
    ensures Derives(N(nt), m, i, p)
  {
    hide Rule, Derives;
    InRange(a, m, i, j);
    Apply(nt, [a, b, c, d, e], m, [i, j, k, l, o, p]);
  }

  lemma InRange(symbol: Symbol, m: string, i: nat, j: nat)
    requires Derives(symbol, m, i, j)
    ensures i <= j <= |m|
  {
  }

  // words and tokens

  lemma TokenSound(m: string, i: nat, c: char, text: string)
    requires text == [c]
    ensures Sound(T(text), m, i, M.Token(m, i, c))
  {
    if M.Token(m, i, c).At? { LeafDerives(T(text), m, i, i + 1); }
  }

  lemma TwoSound(m: string, i: nat, token: string)
    requires |token| == 2
    ensures Sound(T(token), m, i, M.Two(m, i, token))
  {
    if M.Two(m, i, token).At? { LeafDerives(T(token), m, i, i + 2); }
  }

  lemma ClassSound(m: string, i: nat, chars: string)
    ensures Sound(C(chars), m, i, M.Class(m, i, chars))
  {
    if M.Class(m, i, chars).At? { LeafDerives(C(chars), m, i, i + 1); }
  }

  lemma AllDigits(m: string, j: nat, k: nat)
    requires j <= k <= |m| && forall x | j <= x < k :: M.IsDigit(m[x])
    ensures forall c | c in m[j..k] :: M.IsDigit(c)
  {
  }

  lemma NumberIs(m: string, i: nat)
    requires i <= |m| && M.Number(m, i).At?
    ensures var s := m[i..M.Number(m, i).next]; IsNumber(s) && ValueOf(s) == M.NumberValue(m, i)
  {
    var j, k := M.DigitsStart(m, i), M.Number(m, i).next;
    var s := m[i..k];
    AllDigits(m, j, k);
    if j > i {
      assert s[0] == 'n' && s[1..] == m[j..k];
    } else {
      assert s == m[j..k] && s[0] == m[i];
    }
  }

  lemma NumberSound(m: string, i: nat)
    requires i <= |m|
    ensures Sound(L(Number), m, i, M.Number(m, i))
  {
    if M.Number(m, i).At? {
      NumberIs(m, i);
      LeafDerives(L(Number), m, i, M.Number(m, i).next);
    }
  }

  lemma FloatSound(m: string, i: nat)
    requires i <= |m|
    ensures Sound(L(Float), m, i, M.Some(m, i, M.IsHex))
  {
    var p := M.Some(m, i, M.IsHex);
    if p.At? {
      forall c | c in m[i..p.next] ensures M.IsHex(c) {
        var x :| i <= x < p.next && m[x] == c;
      }
      LeafDerives(L(Float), m, i, p.next);
    }
  }

  lemma SeqIdSound(m: string, i: nat)
    requires i <= |m|
    ensures Sound(L(SeqId), m, i, M.Some(m, i, M.IsSeq))
  {
    var p := M.Some(m, i, M.IsSeq);
    if p.At? {
      forall c | c in m[i..p.next] ensures M.IsSeq(c) {
        var x :| i <= x < p.next && m[x] == c;
      }
      LeafDerives(L(SeqId), m, i, p.next);
    }
  }

  lemma SourceNameWord(m: string, i: nat, k: nat, end: nat)
    requires i < k <= |m| && i < end <= |m| && IsNumber(m[i..k]) && ValueOf(m[i..k]) == end - k
    ensures Word(SourceName, m[i..end])
  {
    hide IsNumber, ValueOf;
    var s := m[i..end];
    if k <= end {
      assert s[..k - i] == m[i..k];
      assert LengthAndName(s, k - i);
    } else {
      assert s + m[end..k] == m[i..k];
      assert CutNumber(s, m[end..k]);
    }
  }

  lemma SourceNameSound(m: string, i: nat)
    requires i <= |m|
    ensures Sound(L(SourceName), m, i, M.SourceName(m, i))
  {
    if M.SourceName(m, i).At? {
      var k, end := M.Number(m, i).next, M.SourceName(m, i).next;
      NumberIs(m, i);
      SourceNameWord(m, i, k, end);
      LeafDerives(L(SourceName), m, i, end);
    }
  }

  lemma OperatorSound(m: string, i: nat)
    requires i + 1 < |m| && M.IsOperator(m, i)
    ensures Derives(L(Operator), m, i, i + 2)
  {
    LeafDerives(L(Operator), m, i, i + 2);
  }

  lemma QualifiersWord(s: string, r: bool, v: bool, k: bool)
    requires r || v || k
    requires s == (if r then "r" else "") + (if v then "V" else "") + (if k then "K" else "")
    ensures Word(CvQualifiers, s)
  {
    if r && v && k { assert s == "rVK"; }
    else if r && v { assert s == "rV"; }
    else if r && k { assert s == "rK"; }
    else if v && k { assert s == "VK"; }
    else if r { assert s == "r"; }
    else if v { assert s == "V"; }
    else { assert s == "K"; }
  }

  lemma CvQualifiersSound(m: string, i: nat)
    requires i <= |m|
    ensures Sound(L(CvQualifiers), m, i, M.CVQualifiers(m, i))
  {
    var r := M.Token(m, i, 'r').OrAt(i);
    var v := M.Token(m, r, 'V').OrAt(r);
    var k := M.Token(m, v, 'K').OrAt(v);
    if k > i {
      QualifiersWord(m[i..k], r > i, v > r, k > v);
      LeafDerives(L(CvQualifiers), m, i, k);
    }
  }

  // the parsers

  lemma {:induction false} VOffsetSound(m: string, i: nat)
    requires i <= |m|
    ensures Sound(N(VOffset), m, i, M.VOffset(m, i))
  {
    hide Derives, M.Number;
    var p := M.Number(m, i);
    NumberSound(m, i);
    if p.At? {
      var q := M.Token(m, p.next, '_');
      TokenSound(m, p.next, '_', "_");
      if q.At? {
        var r := M.Number(m, q.next);
        NumberSound(m, q.next);
        if r.At? { Apply3(VOffset, L(Number), T("_"), L(Number), m, i, p.next, q.next, r.next); }
      }
    }
  }

  lemma {:induction false} CallOffsetSound(m: string, i: nat)
    requires i <= |m|
    ensures Sound(N(CallOffset), m, i, M.CallOffset(m, i))
  {
    hide Derives, M.Number, M.VOffset;
    {
      var p := M.Token(m, i, 'h');
      TokenSound(m, i, 'h', "h");
      if p.At? {
        var q := M.Number(m, p.next);
        NumberSound(m, p.next);
        if q.At? {
          var r := M.Token(m, q.next, '_');
          TokenSound(m, q.next, '_', "_");
          if r.At? { Apply3(CallOffset, T("h"), L(Number), T("_"), m, i, p.next, q.next, r.next); }
        }
      }
    }
    {
      var p := M.Token(m, i, 'v');
      TokenSound(m, i, 'v', "v");
      if p.At? {
        var q := M.VOffset(m, p.next);
        VOffsetSound(m, p.next);
        if q.At? {
          var r := M.Token(m, q.next, '_');
          TokenSound(m, q.next, '_', "_");
          if r.At? { Apply3(CallOffset, T("v"), N(VOffset), T("_"), m, i, p.next, q.next, r.next); }
        }
      }
    }
  }

  lemma {:induction false} DiscriminatorSound(m: string, i: nat)
    requires i <= |m|
    ensures Sound(N(Discriminator), m, i, M.Discriminator(m, i))
  {
    hide Derives, M.Number;
    var p := M.Token(m, i, '_');
    TokenSound(m, i, '_', "_");
    if p.At? {
      var q := M.Number(m, p.next);
      NumberSound(m, p.next);
      if q.At? { Apply2(Discriminator, T("_"), L(Number), m, i, p.next, q.next); }
    }
  }

  lemma {:induction false} CtorDtorNameSound(m: string, i: nat)
    requires i <= |m|
    ensures Sound(N(CtorDtorName), m, i, M.CtorDtorName(m, i))
  {
    hide Derives;
    {
      var p := M.Token(m, i, 'C');
      TokenSound(m, i, 'C', "C");
      if p.At? {
        var q := M.Class(m, p.next, "123");
        ClassSound(m, p.next, "123");
        if q.At? { Apply2(CtorDtorName, T("C"), C("123"), m, i, p.next, q.next); }
      }
    }
    {
      var p := M.Token(m, i, 'D');
      TokenSound(m, i, 'D', "D");
      if p.At? {
        var q := M.Class(m, p.next, "012");
        ClassSound(m, p.next, "012");
        if q.At? { Apply2(CtorDtorName, T("D"), C("012"), m, i, p.next, q.next); }
      }
    }
  }

  lemma {:induction false} TemplateParamSound(m: string, i: nat)
    requires i <= |m|
    ensures Sound(N(TemplateParam), m, i, M.TemplateParam(m, i))
  {
    hide Derives, M.Number;
    TwoSound(m, i, "T_");
    if M.Two(m, i, "T_").At? { Apply1(TemplateParam, T("T_"), m, i, M.Two(m, i, "T_").next); }
    {
      var p := M.Token(m, i, 'T');
      TokenSound(m, i, 'T', "T");
      if p.At? {
        var q := M.Number(m, p.next);
        NumberSound(m, p.next);
        if q.At? {
          var r := M.Token(m, q.next, '_');
          TokenSound(m, q.next, '_', "_");
          if r.At? { Apply3(TemplateParam, T("T"), L(Number), T("_"), m, i, p.next, q.next, r.next); }
        }
      }
    }
  }

  lemma {:induction false} SubstitutionSound(m: string, i: nat)
    requires i <= |m|
    ensures Sound(N(Substitution), m, i, M.Substitution(m, i))
  {
    hide Derives, M.Some;
    TwoSound(m, i, "S_");
    if M.Two(m, i, "S_").At? { Apply1(Substitution, T("S_"), m, i, M.Two(m, i, "S_").next); }
    {
      var p := M.Token(m, i, 'S');
      TokenSound(m, i, 'S', "S");
      if p.At? {
        var q := M.Some(m, p.next, M.IsSeq);
        SeqIdSound(m, p.next);
        if q.At? {
          var r := M.Token(m, q.next, '_');
          TokenSound(m, q.next, '_', "_");
          if r.At? { Apply3(Substitution, T("S"), L(SeqId), T("_"), m, i, p.next, q.next, r.next); }
        }
      }
    }
    {
      var p := M.Token(m, i, 'S');
      TokenSound(m, i, 'S', "S");
      if p.At? {
        var q := M.Class(m, p.next, M.Keys(M.SUBSTITUTIONS));
        ClassSound(m, p.next, M.Keys(M.SUBSTITUTIONS));
        if q.At? { Apply2(Substitution, T("S"), C(M.Keys(M.SUBSTITUTIONS)), m, i, p.next, q.next); }
      }
    }
  }

  lemma {:induction false} BuiltinTypeSound(m: string, i: nat)
    requires i <= |m|
    ensures Sound(N(BuiltinType), m, i, M.BuiltinType(m, i))
  {
    hide Derives, M.SourceName;
    ClassSound(m, i, M.Keys(M.BUILTIN_TYPES));
    if M.Class(m, i, M.Keys(M.BUILTIN_TYPES)).At? { Apply1(BuiltinType, C(M.Keys(M.BUILTIN_TYPES)), m, i, M.Class(m, i, M.Keys(M.BUILTIN_TYPES)).next); }
    {
      var p := M.Token(m, i, 'u');
      TokenSound(m, i, 'u', "u");
      if p.At? {
        var q := M.SourceName(m, p.next);
        SourceNameSound(m, p.next);
        if q.At? { Apply2(BuiltinType, T("u"), L(SourceName), m, i, p.next, q.next); }
      }
    }
  }

  lemma {:induction false} TemplateTemplateParamSound(m: string, i: nat)
    requires i <= |m|
    ensures Sound(N(TemplateTemplateParam), m, i, M.TemplateTemplateParam(m, i))
  {
    hide Derives, M.TemplateParam, M.Substitution;
    TemplateParamSound(m, i);
    if M.TemplateParam(m, i).At? { Apply1(TemplateTemplateParam, N(TemplateParam), m, i, M.TemplateParam(m, i).next); }
    SubstitutionSound(m, i);
    if M.Substitution(m, i).At? { Apply1(TemplateTemplateParam, N(Substitution), m, i, M.Substitution(m, i).next); }
  }

  lemma LocalSourceNameSound(m: string, i: nat)
    requires i <= |m|
    ensures Sound(N(LocalSourceName), m, i, M.LocalSourceName(m, i))
  {
    hide Derives, M.SourceName, M.Discriminator;
    var p := M.Token(m, i, 'L');
    TokenSound(m, i, 'L', "L");
    if p.At? {
      var q := M.SourceName(m, p.next);
      SourceNameSound(m, p.next);
      if q.At? {
        var d := M.Discriminator(m, q.next);
        DiscriminatorSound(m, q.next);
        Apply2(LocalSourceName, T("L"), L(SourceName), m, i, p.next, q.next);
        if d.At? { Apply3(LocalSourceName, T("L"), L(SourceName), N(Discriminator), m, i, p.next, q.next, d.next); }
      }
    }
  }

  lemma {:induction false} MangledNameSound(m: string, i: nat)
    requires i <= |m|
    ensures Sound(N(MangledName), m, i, M.MangledName(m, i))
    decreases |m| - i, 0
  {
    hide Derives, M.Encoding;
    var p := M.Two(m, i, "_Z");
    TwoSound(m, i, "_Z");
    if p.At? {
      var q := M.Encoding(m, p.next);
      EncodingSound(m, p.next);
      if q.At? { Apply2(MangledName, T("_Z"), N(Encoding), m, i, p.next, q.next); }
    }
  }

  lemma {:induction false} EncodingSound(m: string, i: nat)
    requires i <= |m|
    ensures Sound(N(Encoding), m, i, M.Encoding(m, i))
    decreases |m| - i, 5
  {
    hide Derives, M.Name, M.BareFunctionType, M.SpecialName;
    {
      var p := M.Name(m, i);
      NameSound(m, i);
      if p.At? {
        var q := M.BareFunctionType(m, p.next);
        BareFunctionTypeSound(m, p.next);
        if q.At? { Apply2(Encoding, N(Name), N(BareFunctionType), m, i, p.next, q.next); }
      }
    }
    NameSound(m, i);
    if M.Name(m, i).At? { Apply1(Encoding, N(Name), m, i, M.Name(m, i).next); }
    SpecialNameSound(m, i);
    if M.SpecialName(m, i).At? { Apply1(Encoding, N(SpecialName), m, i, M.SpecialName(m, i).next); }
  }

  lemma {:induction false} NameSound(m: string, i: nat)
    requires i <= |m|
    ensures Sound(N(Name), m, i, M.Name(m, i))
    decreases |m| - i, 4
  {
    hide Derives, M.NestedName, M.LocalName, M.UnscopedTemplateName, M.TemplateArgs, M.UnscopedName;
    NestedNameSound(m, i);
    if M.NestedName(m, i).At? { Apply1(Name, N(NestedName), m, i, M.NestedName(m, i).next); }
    LocalNameSound(m, i);
    if M.LocalName(m, i).At? { Apply1(Name, N(LocalName), m, i, M.LocalName(m, i).next); }
    {
      var p := M.UnscopedTemplateName(m, i);
      UnscopedTemplateNameSound(m, i);
      if p.At? {
        var q := M.TemplateArgs(m, p.next);
        TemplateArgsSound(m, p.next);
        if q.At? { Apply2(Name, N(UnscopedTemplateName), N(TemplateArgs), m, i, p.next, q.next); }
      }
    }
    UnscopedNameSound(m, i);
    if M.UnscopedName(m, i).At? { Apply1(Name, N(UnscopedName), m, i, M.UnscopedName(m, i).next); }
  }

  lemma {:induction false} UnscopedNameSound(m: string, i: nat)
    requires i <= |m|
    ensures Sound(N(UnscopedName), m, i, M.UnscopedName(m, i))
    decreases |m| - i, 2
  {
    hide Derives, M.UnqualifiedName;
    UnqualifiedNameSound(m, i);
    if M.UnqualifiedName(m, i).At? { Apply1(UnscopedName, N(UnqualifiedName), m, i, M.UnqualifiedName(m, i).next); }
    {
      var p := M.Two(m, i, "St");
      TwoSound(m, i, "St");
      if p.At? {
        var q := M.UnqualifiedName(m, p.next);
        UnqualifiedNameSound(m, p.next);
        if q.At? { Apply2(UnscopedName, T("St"), N(UnqualifiedName), m, i, p.next, q.next); }
      }
    }
  }

  lemma {:induction false} UnscopedTemplateNameSound(m: string, i: nat)
    requires i <= |m|
    ensures Sound(N(UnscopedTemplateName), m, i, M.UnscopedTemplateName(m, i))
    decreases |m| - i, 3
  {
    hide Derives, M.UnscopedName, M.Substitution;
    UnscopedNameSound(m, i);
    if M.UnscopedName(m, i).At? { Apply1(UnscopedTemplateName, N(UnscopedName), m, i, M.UnscopedName(m, i).next); }
    SubstitutionSound(m, i);
    if M.Substitution(m, i).At? { Apply1(UnscopedTemplateName, N(Substitution), m, i, M.Substitution(m, i).next); }
  }

  lemma {:induction false} NestedNameSound(m: string, i: nat)
    requires i <= |m|
    ensures Sound(N(NestedName), m, i, M.NestedName(m, i))
    decreases |m| - i, 0
  {
    var p := M.Token(m, i, 'N');
    TokenSound(m, i, 'N', "N");
    if p.At? {
      var cv := M.CVQualifiers(m, p.next);
      CvQualifiersSound(m, p.next);
      var start := cv.OrAt(p.next);
      EmptyPrefix(m, start);
      PrefixSound(m, start, start, false);
      var end := M.Prefix(m, start, false).OrAt(start);
      TokenSound(m, end, 'E', "E");
      if M.Prefix(m, start, false).At? && M.Token(m, end, 'E').At? {
        if cv.At? {
          Apply4(NestedName, T("N"), L(CvQualifiers), N(Prefix), T("E"), m, i, p.next, start, end, end + 1);
        } else {
          Apply3(NestedName, T("N"), N(Prefix), T("E"), m, i, p.next, end, end + 1);
        }
      }
    }
  }

  lemma EmptyPrefix(m: string, i: nat)
    requires i <= |m|
    ensures Derives(N(Prefix), m, i, i)
  {
    Apply(Prefix, [], m, [i]);
  }

  /** The loop extends the prefix that it has got so far. */
  lemma {:induction false} PrefixSound(m: string, start: nat, i: nat, hasSomething: bool)
    requires i <= |m| && Derives(N(Prefix), m, start, i)
    ensures var p := M.Prefix(m, i, hasSomething); p.At? ==> Derives(N(Prefix), m, start, p.next)
    decreases |m| - i, 4
  {
    hide Derives, M.Component, M.TemplateArgs;
    ComponentSound(m, start, i);
    var p := M.Component(m, i);
    if p.At? {
      PrefixSound(m, start, p.next, true);
    } else if p.Fail? {
      var q := M.TemplateArgs(m, i);
      TemplateArgsSound(m, i);
      if hasSomething && q.At? {
        Apply2(Prefix, N(Prefix), N(TemplateArgs), m, start, i, q.next);
        PrefixSound(m, start, q.next, false);
      }
    }
  }

  lemma {:induction false} ComponentSound(m: string, start: nat, i: nat)
    requires i <= |m| && Derives(N(Prefix), m, start, i)
    ensures M.Component(m, i).At? ==> Derives(N(Prefix), m, start, M.Component(m, i).next)
    decreases |m| - i, 3
  {
    hide Derives, M.TemplateParam, M.Substitution, M.UnscopedName;
    TemplateParamSound(m, i);
    SubstitutionSound(m, i);
    UnscopedNameSound(m, i);
    var p, q, r := M.TemplateParam(m, i), M.Substitution(m, i), M.UnscopedName(m, i);
    if p.At? { Apply2(Prefix, N(Prefix), N(TemplateParam), m, start, i, p.next); }
    if q.At? { Apply2(Prefix, N(Prefix), N(Substitution), m, start, i, q.next); }
    if r.At? { Apply2(Prefix, N(Prefix), N(UnscopedName), m, start, i, r.next); }
  }

  lemma {:induction false} UnqualifiedNameSound(m: string, i: nat)
    requires i <= |m|
    ensures Sound(N(UnqualifiedName), m, i, M.UnqualifiedName(m, i))
    decreases |m| - i, 1
  {
    hide Derives, M.OperatorName, M.CtorDtorName, M.SourceName, M.LocalSourceName;
    OperatorNameSound(m, i);
    if M.OperatorName(m, i).At? { Apply1(UnqualifiedName, N(OperatorName), m, i, M.OperatorName(m, i).next); }
    CtorDtorNameSound(m, i);
    if M.CtorDtorName(m, i).At? { Apply1(UnqualifiedName, N(CtorDtorName), m, i, M.CtorDtorName(m, i).next); }
    SourceNameSound(m, i);
    if M.SourceName(m, i).At? { Apply1(UnqualifiedName, L(SourceName), m, i, M.SourceName(m, i).next); }
    LocalSourceNameSound(m, i);
    if M.LocalSourceName(m, i).At? { Apply1(UnqualifiedName, N(LocalSourceName), m, i, M.LocalSourceName(m, i).next); }
  }

  lemma {:induction false} OperatorNameSound(m: string, i: nat)
    requires i <= |m|
    ensures Sound(N(OperatorName), m, i, M.OperatorName(m, i))
    decreases |m| - i, 0
  {
    hide Derives, M.Type, M.SourceName, M.IsOperator;
    if i + 2 <= |m| {
      {
        var p := M.Two(m, i, "cv");
        TwoSound(m, i, "cv");
        if p.At? {
          var q := M.Type(m, p.next);
          TypeSound(m, p.next);
          if q.At? { Apply2(OperatorName, T("cv"), N(Type), m, i, p.next, q.next); }
        }
      }
      {
        var p := M.Token(m, i, 'v');
        TokenSound(m, i, 'v', "v");
        if p.At? {
          var q := M.Class(m, p.next, "0123456789");
          ClassSound(m, p.next, "0123456789");
          if q.At? {
            var r := M.SourceName(m, q.next);
            SourceNameSound(m, q.next);
            if r.At? { Apply3(OperatorName, T("v"), C("0123456789"), L(SourceName), m, i, p.next, q.next, r.next); }
          }
        }
      }
      if M.IsOperator(m, i) {
        OperatorSound(m, i);
        Apply1(OperatorName, L(Operator), m, i, i + 2);
      }
    }
  }

  lemma {:induction false} SpecialNameSound(m: string, i: nat)
    requires i <= |m|
    ensures Sound(N(SpecialName), m, i, M.SpecialName(m, i))
    decreases |m| - i, 2
  {
    hide Derives;
    StandardSpecialNameSound(m, i);
    GnuSpecialNameSound(m, i);
  }

  lemma {:induction false} CovariantThunkSound(m: string, i: nat)
    requires i <= |m|
    ensures Sound(N(SpecialName), m, i, M.CovariantThunk(m, i))
    decreases |m| - i, 0
  {
    hide Derives, M.CallOffset, M.Encoding;
    var p := M.Two(m, i, "Tc");
    TwoSound(m, i, "Tc");
    if p.At? {
      var q := M.CallOffset(m, p.next);
      CallOffsetSound(m, p.next);
      if q.At? {
        var r := M.CallOffset(m, q.next);
        CallOffsetSound(m, q.next);
        if r.At? {
          var s := M.Encoding(m, r.next);
          EncodingSound(m, r.next);
          if s.At? { Apply4(SpecialName, T("Tc"), N(CallOffset), N(CallOffset), N(Encoding), m, i, p.next, q.next, r.next, s.next); }
        }
      }
    }
  }

  lemma {:induction false} StandardSpecialNameSound(m: string, i: nat)
    requires i <= |m|
    ensures Sound(N(SpecialName), m, i, M.StandardSpecialName(m, i))
    decreases |m| - i, 1
  {
    hide Derives, M.Type, M.Name, M.CallOffset, M.Encoding;
    CovariantThunkSound(m, i);
    {
      var p := M.Token(m, i, 'T');
      TokenSound(m, i, 'T', "T");
      if p.At? {
        var q := M.Class(m, p.next, "VTIS");
        ClassSound(m, p.next, "VTIS");
        if q.At? {
          var r := M.Type(m, q.next);
          TypeSound(m, q.next);
          if r.At? { Apply3(SpecialName, T("T"), C("VTIS"), N(Type), m, i, p.next, q.next, r.next); }
        }
      }
    }
    {
      var p := M.Two(m, i, "GV");
      TwoSound(m, i, "GV");
      if p.At? {
        var q := M.Name(m, p.next);
        NameSound(m, p.next);
        if q.At? { Apply2(SpecialName, T("GV"), N(Name), m, i, p.next, q.next); }
      }
    }
    {
      var p := M.Token(m, i, 'T');
      TokenSound(m, i, 'T', "T");
      if p.At? {
        var q := M.CallOffset(m, p.next);
        CallOffsetSound(m, p.next);
        if q.At? {
          var r := M.Encoding(m, q.next);
          EncodingSound(m, q.next);
          if r.At? { Apply3(SpecialName, T("T"), N(CallOffset), N(Encoding), m, i, p.next, q.next, r.next); }
        }
      }
    }
  }

  lemma {:induction false} GnuSpecialNameSound(m: string, i: nat)
    requires i <= |m|
    ensures Sound(N(SpecialName), m, i, M.GnuSpecialName(m, i))
    decreases |m| - i, 1
  {
    hide Derives, M.Type, M.Name, M.Encoding, M.CallOffset;
    ConstructionTableSound(m, i);
    {
      var p := M.Token(m, i, 'T');
      TokenSound(m, i, 'T', "T");
      if p.At? {
        var q := M.Class(m, p.next, "FJ");
        ClassSound(m, p.next, "FJ");
        if q.At? {
          var r := M.Type(m, q.next);
          TypeSound(m, q.next);
          if r.At? { Apply3(SpecialName, T("T"), C("FJ"), N(Type), m, i, p.next, q.next, r.next); }
        }
      }
    }
    {
      var p := M.Two(m, i, "GR");
      TwoSound(m, i, "GR");
      if p.At? {
        var q := M.Name(m, p.next);
        NameSound(m, p.next);
        if q.At? { Apply2(SpecialName, T("GR"), N(Name), m, i, p.next, q.next); }
      }
    }
    {
      var p := M.Two(m, i, "GA");
      TwoSound(m, i, "GA");
      if p.At? {
        var q := M.Encoding(m, p.next);
        EncodingSound(m, p.next);
        if q.At? { Apply2(SpecialName, T("GA"), N(Encoding), m, i, p.next, q.next); }
      }
    }
    {
      var p := M.Token(m, i, 'T');
      TokenSound(m, i, 'T', "T");
      if p.At? {
        var q := M.Class(m, p.next, "hv");
        ClassSound(m, p.next, "hv");
        if q.At? {
          var r := M.CallOffset(m, q.next);
          CallOffsetSound(m, q.next);
          if r.At? {
            var s := M.Encoding(m, r.next);
            EncodingSound(m, r.next);
            if s.At? { Apply4(SpecialName, T("T"), C("hv"), N(CallOffset), N(Encoding), m, i, p.next, q.next, r.next, s.next); }
          }
        }
      }
    }
  }

  lemma {:induction false} ConstructionTableSound(m: string, i: nat)
    requires i <= |m|
    ensures Sound(N(SpecialName), m, i, M.ConstructionTable(m, i))
    decreases |m| - i, 0
  {
    hide Derives, M.Type, M.Number;
    var p := M.Two(m, i, "TC");
    TwoSound(m, i, "TC");
    if p.At? {
      var q := M.Type(m, p.next);
      TypeSound(m, p.next);
      if q.At? {
        var r := M.Number(m, q.next);
        NumberSound(m, q.next);
        if r.At? {
          var s := M.Token(m, r.next, '_');
          TokenSound(m, r.next, '_', "_");
          if s.At? {
            var t := M.Type(m, s.next);
            TypeSound(m, s.next);
            if t.At? { Apply5(SpecialName, T("TC"), N(Type), L(Number), T("_"), N(Type), m, i, p.next, q.next, r.next, s.next, t.next); }
          }
        }
      }
    }
  }

  lemma {:induction false} TypeSound(m: string, i: nat)
    requires i <= |m|
    ensures Sound(N(Type), m, i, M.Type(m, i))
    decreases |m| - i, 6
  {
    hide Derives;
    ModifiedTypeSound(m, i);
    WholeTypeSound(m, i);
    TemplatedTypeSound(m, i);
  }

  lemma {:induction false} ModifiedTypeSound(m: string, i: nat)
    requires i <= |m|
    ensures Sound(N(Type), m, i, M.ModifiedType(m, i))
    decreases |m| - i, 1
  {
    hide Derives, M.CVQualifiers, M.Type;
    PackOrDecltypeSound(m, i);
    VendorTypeSound(m, i);
    {
      var p := M.CVQualifiers(m, i);
      CvQualifiersSound(m, i);
      if p.At? {
        var q := M.Type(m, p.next);
        TypeSound(m, p.next);
        if q.At? { Apply2(Type, L(CvQualifiers), N(Type), m, i, p.next, q.next); }
      }
    }
    {
      var p := M.Class(m, i, "OPRCG");
      ClassSound(m, i, "OPRCG");
      if p.At? {
        var q := M.Type(m, p.next);
        TypeSound(m, p.next);
        if q.At? { Apply2(Type, C("OPRCG"), N(Type), m, i, p.next, q.next); }
      }
    }
  }

  lemma {:induction false} PackOrDecltypeSound(m: string, i: nat)
    requires i <= |m|
    ensures Sound(N(Type), m, i, M.PackOrDecltype(m, i))
    decreases |m| - i, 0
  {
    hide Derives, M.Type, M.Expression;
    {
      var p := M.Two(m, i, "Dp");
      TwoSound(m, i, "Dp");
      if p.At? {
        var q := M.Type(m, p.next);
        TypeSound(m, p.next);
        if q.At? { Apply2(Type, T("Dp"), N(Type), m, i, p.next, q.next); }
      }
    }
    {
      var p := M.Token(m, i, 'D');
      TokenSound(m, i, 'D', "D");
      if p.At? {
        var q := M.Class(m, p.next, "tT");
        ClassSound(m, p.next, "tT");
        if q.At? {
          var r := M.Expression(m, q.next);
          ExpressionSound(m, q.next);
          if r.At? {
            var s := M.Token(m, r.next, 'E');
            TokenSound(m, r.next, 'E', "E");
            if s.At? { Apply4(Type, T("D"), C("tT"), N(Expression), T("E"), m, i, p.next, q.next, r.next, s.next); }
          }
        }
      }
    }
  }

  lemma {:induction false} VendorTypeSound(m: string, i: nat)
    requires i <= |m|
    ensures Sound(N(Type), m, i, M.VendorType(m, i))
    decreases |m| - i, 0
  {
    hide Derives, M.SourceName, M.Type;
    var p := M.Token(m, i, 'U');
    TokenSound(m, i, 'U', "U");
    if p.At? {
      var q := M.SourceName(m, p.next);
      SourceNameSound(m, p.next);
      if q.At? {
        var r := M.Type(m, q.next);
        TypeSound(m, q.next);
        if r.At? { Apply3(Type, T("U"), L(SourceName), N(Type), m, i, p.next, q.next, r.next); }
      }
    }
  }

  lemma {:induction false} WholeTypeSound(m: string, i: nat)
    requires i <= |m|
    ensures Sound(N(Type), m, i, M.WholeType(m, i))
    decreases |m| - i, 5
  {
    hide Derives, M.BuiltinType, M.FunctionType, M.Name, M.ArrayType, M.PointerToMemberType, M.Substitution;
    BuiltinTypeSound(m, i);
    if M.BuiltinType(m, i).At? { Apply1(Type, N(BuiltinType), m, i, M.BuiltinType(m, i).next); }
    FunctionTypeSound(m, i);
    if M.FunctionType(m, i).At? { Apply1(Type, N(FunctionType), m, i, M.FunctionType(m, i).next); }
    NameSound(m, i);
    if M.Name(m, i).At? {
      Apply1(ClassEnumType, N(Name), m, i, M.Name(m, i).next);
      Apply1(Type, N(ClassEnumType), m, i, M.Name(m, i).next);
    }
    ArrayTypeSound(m, i);
    if M.ArrayType(m, i).At? { Apply1(Type, N(ArrayType), m, i, M.ArrayType(m, i).next); }
    PointerToMemberTypeSound(m, i);
    if M.PointerToMemberType(m, i).At? { Apply1(Type, N(PointerToMemberType), m, i, M.PointerToMemberType(m, i).next); }
    SubstitutionSound(m, i);
    if M.Substitution(m, i).At? { Apply1(Type, N(Substitution), m, i, M.Substitution(m, i).next); }
  }

  lemma {:induction false} TemplatedTypeSound(m: string, i: nat)
    requires i <= |m|
    ensures Sound(N(Type), m, i, M.TemplatedType(m, i))
    decreases |m| - i, 0
  {
    hide Derives, M.TemplateTemplateParam, M.TemplateArgs, M.TemplateParam;
    {
      var p := M.TemplateTemplateParam(m, i);
      TemplateTemplateParamSound(m, i);
      if p.At? {
        var q := M.TemplateArgs(m, p.next);
        TemplateArgsSound(m, p.next);
        if q.At? { Apply2(Type, N(TemplateTemplateParam), N(TemplateArgs), m, i, p.next, q.next); }
      }
    }
    TemplateParamSound(m, i);
    if M.TemplateParam(m, i).At? { Apply1(Type, N(TemplateParam), m, i, M.TemplateParam(m, i).next); }
  }

  lemma {:induction false} FunctionTypeSound(m: string, i: nat)
    requires i <= |m|
    ensures Sound(N(FunctionType), m, i, M.FunctionType(m, i))
    decreases |m| - i, 0
  {
    hide Derives, M.BareFunctionType;
    var p := M.Token(m, i, 'F');
    TokenSound(m, i, 'F', "F");
    if p.At? {
      var y := M.Token(m, p.next, 'Y');
      TokenSound(m, p.next, 'Y', "Y");
      var start := y.OrAt(p.next);
      var q := M.BareFunctionType(m, start);
      BareFunctionTypeSound(m, start);
      if q.At? {
        TokenSound(m, q.next, 'E', "E");
        if M.Token(m, q.next, 'E').At? {
          if y.At? {
            Apply4(FunctionType, T("F"), T("Y"), N(BareFunctionType), T("E"), m, i, p.next, start, q.next, q.next + 1);
          } else {
            Apply3(FunctionType, T("F"), N(BareFunctionType), T("E"), m, i, p.next, q.next, q.next + 1);
          }
        }
      }
    }
  }

  lemma {:induction false} BareFunctionTypeSound(m: string, i: nat)
    requires i <= |m|
    ensures Sound(N(BareFunctionType), m, i, M.BareFunctionType(m, i))
    decreases |m| - i, 8
  {
    hide Derives, M.Type;
    TypeSound(m, i);
    var p := M.Type(m, i);
    if p.At? {
      Apply1(BareFunctionType, N(Type), m, i, p.next);
      TypesSound(m, i, p.next);
    }
  }

  lemma {:induction false} TypesSound(m: string, start: nat, i: nat)
    requires i <= |m| && Derives(N(BareFunctionType), m, start, i)
    ensures M.Types(m, i).At? ==> Derives(N(BareFunctionType), m, start, M.Types(m, i).next)
    decreases |m| - i, 7
  {
    hide Derives, M.Type;
    TypeSound(m, i);
    var p := M.Type(m, i);
    if p.At? {
      Apply2(BareFunctionType, N(BareFunctionType), N(Type), m, start, i, p.next);
      TypesSound(m, start, p.next);
    }
  }

  lemma {:induction false} ArrayTypeSound(m: string, i: nat)
    requires i <= |m|
    ensures Sound(N(ArrayType), m, i, M.ArrayType(m, i))
    decreases |m| - i, 1
  {
    hide Derives, M.SizedArray, M.VariableArray;
    SizedArraySound(m, i);
    VariableArraySound(m, i);
  }

  lemma {:induction false} SizedArraySound(m: string, i: nat)
    requires i <= |m|
    ensures Sound(N(ArrayType), m, i, M.SizedArray(m, i))
    decreases |m| - i, 0
  {
    hide Derives, M.Number, M.Type;
    var p := M.Token(m, i, 'A');
    TokenSound(m, i, 'A', "A");
    if p.At? {
      var q := M.Number(m, p.next);
      NumberSound(m, p.next);
      if q.At? {
        var r := M.Token(m, q.next, '_');
        TokenSound(m, q.next, '_', "_");
        if r.At? {
          var s := M.Type(m, r.next);
          TypeSound(m, r.next);
          if s.At? { Apply4(ArrayType, T("A"), L(Number), T("_"), N(Type), m, i, p.next, q.next, r.next, s.next); }
        }
      }
    }
  }

  lemma {:induction false} VariableArraySound(m: string, i: nat)
    requires i <= |m|
    ensures Sound(N(ArrayType), m, i, M.VariableArray(m, i))
    decreases |m| - i, 0
  {
    hide Derives, M.Type, M.Expression;
    var p := M.Token(m, i, 'A');
    TokenSound(m, i, 'A', "A");
    if p.At? {
      var e := M.Expression(m, p.next);
      ExpressionSound(m, p.next);
      var end := e.OrAt(p.next);
      TokenSound(m, end, '_', "_");
      if M.Token(m, end, '_').At? {
        var q := M.Type(m, end + 1);
        TypeSound(m, end + 1);
        if q.At? {
          if e.At? {
            Apply4(ArrayType, T("A"), N(Expression), T("_"), N(Type), m, i, p.next, end, end + 1, q.next);
          } else {
            Apply3(ArrayType, T("A"), T("_"), N(Type), m, i, p.next, end + 1, q.next);
          }
        }
      }
    }
  }

  lemma {:induction false} PointerToMemberTypeSound(m: string, i: nat)
    requires i <= |m|
    ensures Sound(N(PointerToMemberType), m, i, M.PointerToMemberType(m, i))
    decreases |m| - i, 0
  {
    hide Derives, M.Type;
    var p := M.Token(m, i, 'M');
    TokenSound(m, i, 'M', "M");
    if p.At? {
      var q := M.Type(m, p.next);
      TypeSound(m, p.next);
      if q.At? {
        var r := M.Type(m, q.next);
        TypeSound(m, q.next);
        if r.At? { Apply3(PointerToMemberType, T("M"), N(Type), N(Type), m, i, p.next, q.next, r.next); }
      }
    }
  }

  lemma {:induction false} TemplateArgsSound(m: string, i: nat)
    requires i <= |m|
    ensures Sound(N(TemplateArgs), m, i, M.TemplateArgs(m, i))
    decreases |m| - i, 0
  {
    hide Derives, M.ArgList;
    var p := M.Token(m, i, 'I');
    TokenSound(m, i, 'I', "I");
    if p.At? {
      var end := M.ArgList(m, p.next).OrAt(p.next);
      ArgListSound(m, p.next);
      TokenSound(m, end, 'E', "E");
      if end > p.next && M.Token(m, end, 'E').At? {
        Apply3(TemplateArgs, T("I"), N(ArgList), T("E"), m, i, p.next, end, end + 1);
      }
    }
  }

  lemma {:induction false} ArgListSound(m: string, i: nat)
    requires i <= |m|
    ensures M.ArgList(m, i).OrAt(i) > i ==> Derives(N(ArgList), m, i, M.ArgList(m, i).next)
    decreases |m| - i, 9
  {
    hide Derives, M.TemplateArg;
    TemplateArgSound(m, i);
    var p := M.TemplateArg(m, i);
    if p.At? {
      Apply1(ArgList, N(TemplateArg), m, i, p.next);
      MoreArgsSound(m, i, p.next);
    }
  }

  lemma {:induction false} MoreArgsSound(m: string, start: nat, i: nat)
    requires i <= |m| && Derives(N(ArgList), m, start, i)
    ensures M.ArgList(m, i).At? ==> Derives(N(ArgList), m, start, M.ArgList(m, i).next)
    decreases |m| - i, 8
  {
    hide Derives, M.TemplateArg;
    TemplateArgSound(m, i);
    var p := M.TemplateArg(m, i);
    if p.At? {
      Apply2(ArgList, N(ArgList), N(TemplateArg), m, start, i, p.next);
      MoreArgsSound(m, start, p.next);
    }
  }

  lemma {:induction false} TemplateArgSound(m: string, i: nat)
    requires i <= |m|
    ensures Sound(N(TemplateArg), m, i, M.TemplateArg(m, i))
    decreases |m| - i, 7
  {
    hide Derives, M.ArgList, M.Type, M.ExprPrimary, M.Expression;
    var p := M.Token(m, i, 'I');
    TokenSound(m, i, 'I', "I");
    if p.At? {
      var end := M.ArgList(m, p.next).OrAt(p.next);
      ArgListSound(m, p.next);
      TokenSound(m, end, 'E', "E");
      if M.Token(m, end, 'E').At? {
        if end > p.next {
          Apply3(TemplateArg, T("I"), N(ArgList), T("E"), m, i, p.next, end, end + 1);
        } else {
          Apply2(TemplateArg, T("I"), T("E"), m, i, end, end + 1);
        }
      }
    }
    TypeSound(m, i);
    if M.Type(m, i).At? { Apply1(TemplateArg, N(Type), m, i, M.Type(m, i).next); }
    ExprPrimarySound(m, i);
    if M.ExprPrimary(m, i).At? { Apply1(TemplateArg, N(ExprPrimary), m, i, M.ExprPrimary(m, i).next); }
    {
      var p := M.Token(m, i, 'X');
      TokenSound(m, i, 'X', "X");
      if p.At? {
        var q := M.Expression(m, p.next);
        ExpressionSound(m, p.next);
        if q.At? {
          var r := M.Token(m, q.next, 'E');
          TokenSound(m, q.next, 'E', "E");
          if r.At? { Apply3(TemplateArg, T("X"), N(Expression), T("E"), m, i, p.next, q.next, r.next); }
        }
      }
    }
  }

  lemma {:induction false} ExpressionSound(m: string, i: nat)
    requires i <= |m|
    ensures Sound(N(Expression), m, i, M.Expression(m, i))
    decreases |m| - i, 2
  {
    hide Derives, M.TemplateParam, M.ExprPrimary;
    OperatorExpressionSound(m, i);
    TypeExpressionSound(m, i);
    TemplateParamSound(m, i);
    if M.TemplateParam(m, i).At? { Apply1(Expression, N(TemplateParam), m, i, M.TemplateParam(m, i).next); }
    ExprPrimarySound(m, i);
    if M.ExprPrimary(m, i).At? { Apply1(Expression, N(ExprPrimary), m, i, M.ExprPrimary(m, i).next); }
  }

  lemma {:induction false} OperatorExpressionSound(m: string, i: nat)
    requires i <= |m|
    ensures Sound(N(Expression), m, i, M.OperatorExpression(m, i))
    decreases |m| - i, 1
  {
    hide Derives, M.OperatorName, M.Expression;
    {
      var p := M.OperatorName(m, i);
      OperatorNameSound(m, i);
      if p.At? {
        var q := M.Expression(m, p.next);
        ExpressionSound(m, p.next);
        if q.At? {
          var r := M.Expression(m, q.next);
          ExpressionSound(m, q.next);
          if r.At? {
            var s := M.Expression(m, r.next);
            ExpressionSound(m, r.next);
            if s.At? { Apply4(Expression, N(OperatorName), N(Expression), N(Expression), N(Expression), m, i, p.next, q.next, r.next, s.next); }
          }
        }
      }
    }
    {
      var p := M.OperatorName(m, i);
      OperatorNameSound(m, i);
      if p.At? {
        var q := M.Expression(m, p.next);
        ExpressionSound(m, p.next);
        if q.At? {
          var r := M.Expression(m, q.next);
          ExpressionSound(m, q.next);
          if r.At? { Apply3(Expression, N(OperatorName), N(Expression), N(Expression), m, i, p.next, q.next, r.next); }
        }
      }
    }
    {
      var p := M.OperatorName(m, i);
      OperatorNameSound(m, i);
      if p.At? {
        var q := M.Expression(m, p.next);
        ExpressionSound(m, p.next);
        if q.At? { Apply2(Expression, N(OperatorName), N(Expression), m, i, p.next, q.next); }
      }
    }
  }

  lemma {:induction false} TypeExpressionSound(m: string, i: nat)
    requires i <= |m|
    ensures Sound(N(Expression), m, i, M.TypeExpression(m, i))
    decreases |m| - i, 0
  {
    hide Derives, M.Type, M.UnqualifiedName, M.TemplateArgs;
    {
      var p := M.Two(m, i, "st");
      TwoSound(m, i, "st");
      if p.At? {
        var q := M.Type(m, p.next);
        TypeSound(m, p.next);
        if q.At? { Apply2(Expression, T("st"), N(Type), m, i, p.next, q.next); }
      }
    }
    {
      var p := M.Two(m, i, "sr");
      TwoSound(m, i, "sr");
      if p.At? {
        var q := M.Type(m, p.next);
        TypeSound(m, p.next);
        if q.At? {
          var r := M.UnqualifiedName(m, q.next);
          UnqualifiedNameSound(m, q.next);
          if r.At? {
            var s := M.TemplateArgs(m, r.next);
            TemplateArgsSound(m, r.next);
            if s.At? { Apply4(Expression, T("sr"), N(Type), N(UnqualifiedName), N(TemplateArgs), m, i, p.next, q.next, r.next, s.next); }
          }
        }
      }
    }
    {
      var p := M.Two(m, i, "sr");
      TwoSound(m, i, "sr");
      if p.At? {
        var q := M.Type(m, p.next);
        TypeSound(m, p.next);
        if q.At? {
          var r := M.UnqualifiedName(m, q.next);
          UnqualifiedNameSound(m, q.next);
          if r.At? { Apply3(Expression, T("sr"), N(Type), N(UnqualifiedName), m, i, p.next, q.next, r.next); }
        }
      }
    }
  }

  lemma {:induction false} ExprPrimarySound(m: string, i: nat)
    requires i <= |m|
    ensures Sound(N(ExprPrimary), m, i, M.ExprPrimary(m, i))
    decreases |m| - i, 1
  {
    hide Derives;
    IntegerLiteralSound(m, i);
    FloatLiteralSound(m, i);
    NameLiteralSound(m, i);
  }

  lemma {:induction false} IntegerLiteralSound(m: string, i: nat)
    requires i <= |m|
    ensures Sound(N(ExprPrimary), m, i, M.IntegerLiteral(m, i))
    decreases |m| - i, 0
  {
    hide Derives, M.Type, M.Number;
    var p := M.Token(m, i, 'L');
    TokenSound(m, i, 'L', "L");
    if p.At? {
      var q := M.Type(m, p.next);
      TypeSound(m, p.next);
      if q.At? {
        var r := M.Number(m, q.next);
        NumberSound(m, q.next);
        if r.At? {
          var s := M.Token(m, r.next, 'E');
          TokenSound(m, r.next, 'E', "E");
          if s.At? { Apply4(ExprPrimary, T("L"), N(Type), L(Number), T("E"), m, i, p.next, q.next, r.next, s.next); }
        }
      }
    }
  }

  lemma {:induction false} FloatLiteralSound(m: string, i: nat)
    requires i <= |m|
    ensures Sound(N(ExprPrimary), m, i, M.FloatLiteral(m, i))
    decreases |m| - i, 0
  {
    hide Derives, M.Type, M.Some;
    var p := M.Token(m, i, 'L');
    TokenSound(m, i, 'L', "L");
    if p.At? {
      var q := M.Type(m, p.next);
      TypeSound(m, p.next);
      if q.At? {
        var r := M.Some(m, q.next, M.IsHex);
        FloatSound(m, q.next);
        if r.At? {
          var s := M.Token(m, r.next, 'E');
          TokenSound(m, r.next, 'E', "E");
          if s.At? { Apply4(ExprPrimary, T("L"), N(Type), L(Float), T("E"), m, i, p.next, q.next, r.next, s.next); }
        }
      }
    }
  }

  lemma {:induction false} NameLiteralSound(m: string, i: nat)
    requires i <= |m|
    ensures Sound(N(ExprPrimary), m, i, M.NameLiteral(m, i))
    decreases |m| - i, 0
  {
    hide Derives, M.MangledName, M.Encoding;
    {
      var p := M.Token(m, i, 'L');
      TokenSound(m, i, 'L', "L");
      if p.At? {
        var q := M.MangledName(m, p.next);
        MangledNameSound(m, p.next);
        if q.At? {
          var r := M.Token(m, q.next, 'E');
          TokenSound(m, q.next, 'E', "E");
          if r.At? { Apply3(ExprPrimary, T("L"), N(MangledName), T("E"), m, i, p.next, q.next, r.next); }
        }
      }
    }
    {
      var p := M.Two(m, i, "LZ");
      TwoSound(m, i, "LZ");
      if p.At? {
        var q := M.Encoding(m, p.next);
        EncodingSound(m, p.next);
        if q.At? {
          var r := M.Token(m, q.next, 'E');
          TokenSound(m, q.next, 'E', "E");
          if r.At? { Apply3(ExprPrimary, T("LZ"), N(Encoding), T("E"), m, i, p.next, q.next, r.next); }
        }
      }
    }
  }

  lemma {:induction false} LocalNameSound(m: string, i: nat)
    requires i <= |m|
    ensures Sound(N(LocalName), m, i, M.LocalName(m, i))
    decreases |m| - i, 1
  {
    hide Derives;
    LocalEntitySound(m, i);
    LocalStringSound(m, i);
  }

  lemma {:induction false} LocalEntitySound(m: string, i: nat)
    requires i <= |m|
    ensures Sound(N(LocalName), m, i, M.LocalEntity(m, i))
    decreases |m| - i, 0
  {
    hide Derives, M.Encoding, M.Name, M.Discriminator;
    var p := M.Token(m, i, 'Z');
    TokenSound(m, i, 'Z', "Z");
    if p.At? {
      var q := M.Encoding(m, p.next);
      EncodingSound(m, p.next);
      if q.At? {
        var r := M.Token(m, q.next, 'E');
        TokenSound(m, q.next, 'E', "E");
        if r.At? {
          var s := M.Name(m, r.next);
          NameSound(m, r.next);
          if s.At? {
            Apply4(LocalName, T("Z"), N(Encoding), T("E"), N(Name), m, i, p.next, q.next, r.next, s.next);
            var d := M.Discriminator(m, s.next);
            DiscriminatorSound(m, s.next);
            if d.At? { Apply5(LocalName, T("Z"), N(Encoding), T("E"), N(Name), N(Discriminator), m, i, p.next, q.next, r.next, s.next, d.next); }
          }
        }
      }
    }
  }

  lemma {:induction false} LocalStringSound(m: string, i: nat)
    requires i <= |m|
    ensures Sound(N(LocalName), m, i, M.LocalString(m, i))
    decreases |m| - i, 0
  {
    hide Derives, M.Encoding, M.Discriminator;
    var p := M.Token(m, i, 'Z');
    TokenSound(m, i, 'Z', "Z");
    if p.At? {
      var q := M.Encoding(m, p.next);
      EncodingSound(m, p.next);
      if q.At? {
        var r := M.Two(m, q.next, "Es");
        TwoSound(m, q.next, "Es");
        if r.At? {
          Apply3(LocalName, T("Z"), N(Encoding), T("Es"), m, i, p.next, q.next, r.next);
          var d := M.Discriminator(m, r.next);
          DiscriminatorSound(m, r.next);
          if d.At? { Apply4(LocalName, T("Z"), N(Encoding), T("Es"), N(Discriminator), m, i, p.next, q.next, r.next, d.next); }
        }
      }
    }
  }

  /** Whatever the demangler accepts is a mangled name of the grammar, followed by nothing, a
      clone suffix or a version suffix. */
  lemma AcceptedIsDerived(m: string)
    requires M.Accepted(m)
    ensures exists end: nat :: end <= |m| && Derives(N(MangledName), m, 0, end) && (M.CloneSuffix(m, end) || m[end] == '@')
  {
    MangledNameSound(m, 0);
  }
}
