/** The mangled names the demangler accepts: for each of its parsers, where a parse that
    starts at a given position ends. A name is a C string without its terminator. Nothing
    here looks at the output buffer. */
module Mangling {

  /** What a parser says of a position: no parse, the position after one, or that it tried a
      source name whose length does not move the cursor forward, at `at`. What the code
      does from there on is not part of this model. */
  datatype Parse = Fail | At(next: nat) | Stuck(at: nat) {
    predicate IsFailure() { !At? }
    function PropagateFailure(): Parse requires !At? { this }
    function Extract(): nat requires At? { next }
    /** The next alternative is tried after a failure only. */
    function Or(other: Parse): Parse { if Fail? then other else this }
    /** An optional part that may start at `i`. */
    function Optional(i: nat): Parse { if Fail? then At(i) else this }
    function OrAt(i: nat): nat { if At? then next else i }
    /** A parse that consumed something and stayed inside the name, without source names. */
    ghost predicate Ahead(m: string, i: nat) { !Stuck? && (At? ==> i < next <= |m|) }
    /** The same with source names: the parser stops only where a length does not advance. */
    ghost predicate Past(m: string, i: nat) {
      (At? ==> i < next <= |m|) && (Stuck? ==> i <= at <= |m| && !Advances(m, at))
    }
    /** A loop that may consume nothing. */
    ghost predicate NotBefore(m: string, i: nat) {
      !Fail? && (At? ==> i <= next <= |m|) && (Stuck? ==> i <= at <= |m| && !Advances(m, at))
    }
  }

  const OPERATORS: seq<(string, string)> :=
    [("nw", "new"), ("na", "new[]"), ("dl", "delete"), ("da", "delete[]"), ("ps", "+"), ("ng", "-")] +
    [("ad", "&"), ("de", "*"), ("co", "~"), ("pl", "+"), ("mi", "-"), ("ml", "*"), ("dv", "/")] +
    [("rm", "%"), ("an", "&"), ("or", "|"), ("eo", "^"), ("aS", "="), ("pL", "+="), ("mI", "-=")] +
    [("mL", "*="), ("dV", "/="), ("rM", "%="), ("aN", "&="), ("oR", "|="), ("eO", "^="), ("ls", "<<")] +
    [("rs", ">>"), ("lS", "<<="), ("rS", ">>="), ("eq", "=="), ("ne", "!="), ("lt", "<"), ("gt", ">")] +
    [("le", "<="), ("ge", ">="), ("nt", "!"), ("aa", "&&"), ("oo", "||"), ("pp", "++"), ("mm", "--")] +
    [("cm", ","), ("pm", "->*"), ("pt", "->"), ("cl", "()"), ("ix", "[]"), ("qu", "?"), ("st", "sizeof"),
     ("sz", "sizeof")]

  const BUILTIN_TYPES: seq<(char, string)> :=
    [('v', "void"), ('w', "wchar_t"), ('b', "bool"), ('c', "char"), ('a', "signed char"),
     ('h', "unsigned char"), ('s', "short"), ('t', "unsigned short"), ('i', "int"), ('j', "unsigned int"),
     ('l', "long"), ('m', "unsigned long"), ('x', "long long"), ('y', "unsigned long long"),
     ('n', "__int128"), ('o', "unsigned __int128"), ('f', "float"), ('d', "double"), ('e', "long double"),
     ('g', "__float128"), ('z', "ellipsis")]

  const SUBSTITUTIONS: seq<(char, string)> :=
    [('t', ""), ('a', "allocator"), ('b', "basic_string"), ('s', "string"), ('i', "istream"),
     ('o', "ostream"), ('d', "iostream")]

  predicate IsLower(c: char) { 'a' <= c <= 'z' }
  predicate IsAlpha(c: char) { 'a' <= c <= 'z' || 'A' <= c <= 'Z' }
  predicate IsDigit(c: char) { '0' <= c <= '9' }
  predicate IsHex(c: char) { IsDigit(c) || 'a' <= c <= 'f' }
  predicate IsSeq(c: char) { IsDigit(c) || 'A' <= c <= 'Z' }

  function Token(m: string, i: nat, c: char): Parse {
    if i < |m| && m[i] == c then At(i + 1) else Fail
  }

  function Two(m: string, i: nat, token: string): Parse
    requires |token| == 2
  {
    if i + 1 < |m| && m[i] == token[0] && m[i + 1] == token[1] then At(i + 2) else Fail
  }

  function Class(m: string, i: nat, chars: string): Parse {
    if i < |m| && m[i] in chars then At(i + 1) else Fail
  }

  /** The end of the run of characters that satisfy `p`. */
  function Span(m: string, i: nat, p: char -> bool): (j: nat)
    requires i <= |m|
    ensures i <= j <= |m| && (forall k | i <= k < j :: p(m[k])) && (j < |m| ==> !p(m[j]))
    decreases |m| - i
  {
    if i < |m| && p(m[i]) then Span(m, i + 1, p) else i
  }

  function Some(m: string, i: nat, p: char -> bool): (r: Parse)
    requires i <= |m|
    ensures r.Ahead(m, i)
  {
    var j := Span(m, i, p);
    if j == i then Fail else At(j)
  }

  // numbers and source names

  function DigitsStart(m: string, i: nat): (j: nat)
    requires i <= |m|
    ensures i <= j <= |m|
  {
    Token(m, i, 'n').OrAt(i)
  }

  function Number(m: string, i: nat): (r: Parse)
    requires i <= |m|
    ensures r.Ahead(m, i)
  {
    Some(m, DigitsStart(m, i), IsDigit)
  }

  /** The value of a run of digits. */
  function Decimal(digits: string): int {
    if digits == "" then 0
    else 10 * Decimal(digits[..|digits| - 1]) + (digits[|digits| - 1] as int - '0' as int)
  }

  /** The number that starts at `i`, negative after an 'n'. */
  function NumberValue(m: string, i: nat): int
    requires i <= |m| && Number(m, i).At?
  {
    var j := DigitsStart(m, i);
    var n := Decimal(m[j..Number(m, i).next]);
    if j > i then -n else n
  }

  /** Where the code goes after a source name, which can be at or before its start when the
      length is negative. */
  function NameEnd(m: string, i: nat): int
    requires i <= |m| && Number(m, i).At?
  {
    Number(m, i).next + NumberValue(m, i)
  }

  predicate HasName(m: string, i: nat)
    requires i <= |m|
  {
    Number(m, i).At? && NumberValue(m, i) != -1 && NameEnd(m, i) <= |m|
  }

  /** The grammar has no negative lengths; those that still move forward are harmless. */
  predicate Advances(m: string, i: nat)
    requires i <= |m|
  {
    HasName(m, i) ==> i < NameEnd(m, i)
  }

  function SourceName(m: string, i: nat): (r: Parse)
    requires i <= |m|
    ensures r.Past(m, i)
  {
    if !HasName(m, i) then Fail else if Advances(m, i) then At(NameEnd(m, i)) else Stuck(i)
  }

  // parsers that call no other recursive parser

  function CVQualifiers(m: string, i: nat): (r: Parse)
    requires i <= |m|
    ensures r.Ahead(m, i)
  {
    var r := Token(m, i, 'r').OrAt(i);
    var v := Token(m, r, 'V').OrAt(r);
    var k := Token(m, v, 'K').OrAt(v);
    if k > i then At(k) else Fail
  }

  function CtorDtorName(m: string, i: nat): (r: Parse)
    requires i <= |m|
    ensures r.Ahead(m, i)
  {
    (var j :- Token(m, i, 'C'); Class(m, j, "123")).Or((var j :- Token(m, i, 'D'); Class(m, j, "012")))
  }

  function TemplateParam(m: string, i: nat): (r: Parse)
    requires i <= |m|
    ensures r.Ahead(m, i)
  {
    Two(m, i, "T_").Or((var j :- Token(m, i, 'T'); var k :- Number(m, j); Token(m, k, '_')))
  }

  function Substitution(m: string, i: nat): (r: Parse)
    requires i <= |m|
    ensures r.Ahead(m, i)
  {
    Two(m, i, "S_")
    .Or((var j :- Token(m, i, 'S'); var k :- Some(m, j, IsSeq); Token(m, k, '_')))
    .Or((var j :- Token(m, i, 'S'); Class(m, j, Keys(SUBSTITUTIONS))))
  }

  function Keys(table: seq<(char, string)>): (keys: string)
    ensures |keys| == |table| && forall k | 0 <= k < |table| :: keys[k] == table[k].0
  {
    seq(|table|, k requires 0 <= k < |table| => table[k].0)
  }

  function BuiltinType(m: string, i: nat): (r: Parse)
    requires i <= |m|
    ensures r.Past(m, i)
  {
    Class(m, i, Keys(BUILTIN_TYPES)).Or((var j :- Token(m, i, 'u'); SourceName(m, j)))
  }

  function Discriminator(m: string, i: nat): (r: Parse)
    requires i <= |m|
    ensures r.Ahead(m, i)
  {
    var j :- Token(m, i, '_');
    Number(m, j)
  }

  function VOffset(m: string, i: nat): (r: Parse)
    requires i <= |m|
    ensures r.Ahead(m, i)
  {
    var j :- Number(m, i);
    var k :- Token(m, j, '_');
    Number(m, k)
  }

  function CallOffset(m: string, i: nat): (r: Parse)
    requires i <= |m|
    ensures r.Ahead(m, i)
  {
    (var j :- Token(m, i, 'h'); var k :- Number(m, j); Token(m, k, '_'))
    .Or((var j :- Token(m, i, 'v'); var k :- VOffset(m, j); Token(m, k, '_')))
  }

  function LocalSourceName(m: string, i: nat): (r: Parse)
    requires i <= |m|
    ensures r.Past(m, i)
  {
    var j :- Token(m, i, 'L');
    var k :- SourceName(m, j);
    At(Discriminator(m, k).OrAt(k))
  }

  predicate IsOperator(m: string, i: nat)
    requires i + 1 < |m|
  {
    IsLower(m[i]) && IsAlpha(m[i + 1]) && exists k | 0 <= k < |OPERATORS| :: OPERATORS[k].0 == m[i..i + 2]
  }

  // the mutually recursive parsers

  function MangledName(m: string, i: nat): (r: Parse)
    requires i <= |m|
    ensures r.Past(m, i)
    decreases |m| - i, 0
  {
    var j :- Two(m, i, "_Z");
    Encoding(m, j)
  }

  function Encoding(m: string, i: nat): (r: Parse)
    requires i <= |m|
    ensures r.Past(m, i)
    decreases |m| - i, 5
  {
    (var j :- Name(m, i); BareFunctionType(m, j)).Or(Name(m, i)).Or(SpecialName(m, i))
  }

  function Name(m: string, i: nat): (r: Parse)
    requires i <= |m|
    ensures r.Past(m, i)
    decreases |m| - i, 4
  {
    NestedName(m, i).Or(LocalName(m, i))
    .Or((var j :- UnscopedTemplateName(m, i); TemplateArgs(m, j)))
    .Or(UnscopedName(m, i))
  }

  function UnscopedName(m: string, i: nat): (r: Parse)
    requires i <= |m|
    ensures r.Past(m, i)
    decreases |m| - i, 2
  {
    UnqualifiedName(m, i).Or((var j :- Two(m, i, "St"); UnqualifiedName(m, j)))
  }

  function UnscopedTemplateName(m: string, i: nat): (r: Parse)
    requires i <= |m|
    ensures r.Past(m, i)
    decreases |m| - i, 3
  {
    UnscopedName(m, i).Or(Substitution(m, i))
  }

  function NestedName(m: string, i: nat): (r: Parse)
    requires i <= |m|
    ensures r.Past(m, i)
    decreases |m| - i, 0
  {
    var j :- Token(m, i, 'N');
    var k := CVQualifiers(m, j).OrAt(j);
    var l :- Prefix(m, k, false);
    Token(m, l, 'E')
  }

  /** One component of a prefix. */
  function Component(m: string, i: nat): (r: Parse)
    requires i <= |m|
    ensures r.Past(m, i)
    decreases |m| - i, 3
  {
    TemplateParam(m, i).Or(Substitution(m, i)).Or(UnscopedName(m, i))
  }

  /** Template arguments need something before them. */
  function Prefix(m: string, i: nat, hasSomething: bool): (r: Parse)
    requires i <= |m|
    ensures r.NotBefore(m, i)
    decreases |m| - i, 4
  {
    match Component(m, i)
    case At(j) => Prefix(m, j, true)
    case Stuck(k) => Stuck(k)
    case Fail =>
      if !hasSomething then At(i)
      else
        match TemplateArgs(m, i)
        case At(j) => Prefix(m, j, false)
        case Stuck(k) => Stuck(k)
        case Fail => At(i)
  }

  function UnqualifiedName(m: string, i: nat): (r: Parse)
    requires i <= |m|
    ensures r.Past(m, i)
    decreases |m| - i, 1
  {
    OperatorName(m, i).Or(CtorDtorName(m, i)).Or(SourceName(m, i)).Or(LocalSourceName(m, i))
  }

  function OperatorName(m: string, i: nat): (r: Parse)
    requires i <= |m|
    ensures r.Past(m, i)
    decreases |m| - i, 0
  {
    if |m| < i + 2 then Fail
    else
      (var j :- Two(m, i, "cv"); Type(m, j))
      .Or((var j :- Token(m, i, 'v'); var k :- Class(m, j, "0123456789"); SourceName(m, k)))
      .Or(if IsOperator(m, i) then At(i + 2) else Fail)
  }

  function SpecialName(m: string, i: nat): (r: Parse)
    requires i <= |m|
    ensures r.Past(m, i)
    decreases |m| - i, 2
  {
    StandardSpecialName(m, i).Or(GnuSpecialName(m, i))
  }

  function StandardSpecialName(m: string, i: nat): (r: Parse)
    requires i <= |m|
    ensures r.Past(m, i)
    decreases |m| - i, 1
  {
    (var j :- Token(m, i, 'T'); var k :- Class(m, j, "VTIS"); Type(m, k))
    .Or(CovariantThunk(m, i))
    .Or((var j :- Two(m, i, "GV"); Name(m, j)))
    .Or((var j :- Token(m, i, 'T'); var k :- CallOffset(m, j); Encoding(m, k)))
  }

  function CovariantThunk(m: string, i: nat): (r: Parse)
    requires i <= |m|
    ensures r.Past(m, i)
    decreases |m| - i, 0
  {
    var j :- Two(m, i, "Tc");
    var k :- CallOffset(m, j);
    var l :- CallOffset(m, k);
    Encoding(m, l)
  }

  /** G++ extensions. */
  function GnuSpecialName(m: string, i: nat): (r: Parse)
    requires i <= |m|
    ensures r.Past(m, i)
    decreases |m| - i, 1
  {
    ConstructionTable(m, i)
    .Or((var j :- Token(m, i, 'T'); var k :- Class(m, j, "FJ"); Type(m, k)))
    .Or((var j :- Two(m, i, "GR"); Name(m, j)))
    .Or((var j :- Two(m, i, "GA"); Encoding(m, j)))
    .Or((var j :- Token(m, i, 'T'); var k :- Class(m, j, "hv"); var l :- CallOffset(m, k); Encoding(m, l)))
  }

  function ConstructionTable(m: string, i: nat): (r: Parse)
    requires i <= |m|
    ensures r.Past(m, i)
    decreases |m| - i, 0
  {
    var j :- Two(m, i, "TC");
    var k :- Type(m, j);
    var l :- Number(m, k);
    var n :- Token(m, l, '_');
    Type(m, n)
  }

  function Type(m: string, i: nat): (r: Parse)
    requires i <= |m|
    ensures r.Past(m, i)
    decreases |m| - i, 6
  {
    ModifiedType(m, i).Or(WholeType(m, i)).Or(TemplatedType(m, i))
  }

  function ModifiedType(m: string, i: nat): (r: Parse)
    requires i <= |m|
    ensures r.Past(m, i)
    decreases |m| - i, 1
  {
    (var j :- CVQualifiers(m, i); Type(m, j))
    .Or((var j :- Class(m, i, "OPRCG"); Type(m, j)))
    .Or(PackOrDecltype(m, i))
    .Or(VendorType(m, i))
  }

  function VendorType(m: string, i: nat): (r: Parse)
    requires i <= |m|
    ensures r.Past(m, i)
    decreases |m| - i, 0
  {
    var j :- Token(m, i, 'U');
    var k :- SourceName(m, j);
    Type(m, k)
  }

  function PackOrDecltype(m: string, i: nat): (r: Parse)
    requires i <= |m|
    ensures r.Past(m, i)
    decreases |m| - i, 0
  {
    (var j :- Two(m, i, "Dp"); Type(m, j))
    .Or((var j :- Token(m, i, 'D'); var k :- Class(m, j, "tT"); var l :- Expression(m, k); Token(m, l, 'E')))
  }

  function WholeType(m: string, i: nat): (r: Parse)
    requires i <= |m|
    ensures r.Past(m, i)
    decreases |m| - i, 5
  {
    BuiltinType(m, i).Or(FunctionType(m, i)).Or(Name(m, i)).Or(ArrayType(m, i))
    .Or(PointerToMemberType(m, i)).Or(Substitution(m, i))
  }

  function TemplatedType(m: string, i: nat): (r: Parse)
    requires i <= |m|
    ensures r.Past(m, i)
    decreases |m| - i, 0
  {
    (var j :- TemplateTemplateParam(m, i); TemplateArgs(m, j)).Or(TemplateParam(m, i))
  }

  function TemplateTemplateParam(m: string, i: nat): (r: Parse)
    requires i <= |m|
    ensures r.Ahead(m, i)
  {
    TemplateParam(m, i).Or(Substitution(m, i))
  }

  function FunctionType(m: string, i: nat): (r: Parse)
    requires i <= |m|
    ensures r.Past(m, i)
    decreases |m| - i, 0
  {
    var j :- Token(m, i, 'F');
    var k :- BareFunctionType(m, Token(m, j, 'Y').OrAt(j));
    Token(m, k, 'E')
  }

  function BareFunctionType(m: string, i: nat): (r: Parse)
    requires i <= |m|
    ensures r.Past(m, i)
    decreases |m| - i, 8
  {
    var j :- Types(m, i);
    if j > i then At(j) else Fail
  }

  /** As many types as possible. */
  function Types(m: string, i: nat): (r: Parse)
    requires i <= |m|
    ensures r.NotBefore(m, i)
    decreases |m| - i, 7
  {
    match Type(m, i)
    case At(j) => Types(m, j)
    case Stuck(k) => Stuck(k)
    case Fail => At(i)
  }

  function ArrayType(m: string, i: nat): (r: Parse)
    requires i <= |m|
    ensures r.Past(m, i)
    decreases |m| - i, 1
  {
    SizedArray(m, i).Or(VariableArray(m, i))
  }

  function SizedArray(m: string, i: nat): (r: Parse)
    requires i <= |m|
    ensures r.Past(m, i)
    decreases |m| - i, 0
  {
    var j :- Token(m, i, 'A');
    var k :- Number(m, j);
    var l :- Token(m, k, '_');
    Type(m, l)
  }

  function VariableArray(m: string, i: nat): (r: Parse)
    requires i <= |m|
    ensures r.Past(m, i)
    decreases |m| - i, 0
  {
    var j :- Token(m, i, 'A');
    var e :- Expression(m, j).Optional(j);
    var l :- Token(m, e, '_');
    Type(m, l)
  }

  function PointerToMemberType(m: string, i: nat): (r: Parse)
    requires i <= |m|
    ensures r.Past(m, i)
    decreases |m| - i, 0
  {
    var j :- Token(m, i, 'M');
    var k :- Type(m, j);
    Type(m, k)
  }

  function TemplateArgs(m: string, i: nat): (r: Parse)
    requires i <= |m|
    ensures r.Past(m, i)
    decreases |m| - i, 0
  {
    var j :- Token(m, i, 'I');
    var k :- ArgList(m, j);
    if k > j then Token(m, k, 'E') else Fail
  }

  /** As many template arguments as possible. */
  function ArgList(m: string, i: nat): (r: Parse)
    requires i <= |m|
    ensures r.NotBefore(m, i)
    decreases |m| - i, 8
  {
    match TemplateArg(m, i)
    case At(j) => ArgList(m, j)
    case Stuck(k) => Stuck(k)
    case Fail => At(i)
  }

  function TemplateArg(m: string, i: nat): (r: Parse)
    requires i <= |m|
    ensures r.Past(m, i)
    decreases |m| - i, 7
  {
    (var j :- Token(m, i, 'I'); var k :- ArgList(m, j); Token(m, k, 'E'))
    .Or(Type(m, i)).Or(ExprPrimary(m, i))
    .Or((var j :- Token(m, i, 'X'); var k :- Expression(m, j); Token(m, k, 'E')))
  }

  function Expression(m: string, i: nat): (r: Parse)
    requires i <= |m|
    ensures r.Past(m, i)
    decreases |m| - i, 2
  {
    TemplateParam(m, i).Or(ExprPrimary(m, i)).Or(OperatorExpression(m, i)).Or(TypeExpression(m, i))
  }

  function OperatorExpression(m: string, i: nat): (r: Parse)
    requires i <= |m|
    ensures r.Past(m, i)
    decreases |m| - i, 1
  {
    (var j :- OperatorName(m, i); var k :- Expression(m, j); var l :- Expression(m, k); Expression(m, l))
    .Or((var j :- OperatorName(m, i); var k :- Expression(m, j); Expression(m, k)))
    .Or((var j :- OperatorName(m, i); Expression(m, j)))
  }

  function TypeExpression(m: string, i: nat): (r: Parse)
    requires i <= |m|
    ensures r.Past(m, i)
    decreases |m| - i, 0
  {
    (var j :- Two(m, i, "st"); Type(m, j))
    .Or((var j :- Two(m, i, "sr"); var k :- Type(m, j); var l :- UnqualifiedName(m, k); TemplateArgs(m, l)))
    .Or((var j :- Two(m, i, "sr"); var k :- Type(m, j); UnqualifiedName(m, k)))
  }

  function ExprPrimary(m: string, i: nat): (r: Parse)
    requires i <= |m|
    ensures r.Past(m, i)
    decreases |m| - i, 1
  {
    IntegerLiteral(m, i).Or(FloatLiteral(m, i)).Or(NameLiteral(m, i))
  }

  function IntegerLiteral(m: string, i: nat): (r: Parse)
    requires i <= |m|
    ensures r.Past(m, i)
    decreases |m| - i, 0
  {
    var j :- Token(m, i, 'L');
    var k :- Type(m, j);
    var l :- Number(m, k);
    Token(m, l, 'E')
  }

  function FloatLiteral(m: string, i: nat): (r: Parse)
    requires i <= |m|
    ensures r.Past(m, i)
    decreases |m| - i, 0
  {
    var j :- Token(m, i, 'L');
    var k :- Type(m, j);
    var l :- Some(m, k, IsHex);
    Token(m, l, 'E')
  }

  function NameLiteral(m: string, i: nat): (r: Parse)
    requires i <= |m|
    ensures r.Past(m, i)
    decreases |m| - i, 0
  {
    (var j :- Token(m, i, 'L'); var k :- MangledName(m, j); Token(m, k, 'E'))
    .Or((var j :- Two(m, i, "LZ"); var k :- Encoding(m, j); Token(m, k, 'E')))
  }

  function LocalName(m: string, i: nat): (r: Parse)
    requires i <= |m|
    ensures r.Past(m, i)
    decreases |m| - i, 1
  {
    LocalEntity(m, i).Or(LocalString(m, i))
  }

  function LocalEntity(m: string, i: nat): (r: Parse)
    requires i <= |m|
    ensures r.Past(m, i)
    decreases |m| - i, 0
  {
    var j :- Token(m, i, 'Z');
    var k :- Encoding(m, j);
    var l :- Token(m, k, 'E');
    var n :- Name(m, l);
    At(Discriminator(m, n).OrAt(n))
  }

  function LocalString(m: string, i: nat): (r: Parse)
    requires i <= |m|
    ensures r.Past(m, i)
    decreases |m| - i, 0
  {
    var j :- Token(m, i, 'Z');
    var k :- Encoding(m, j);
    var l :- Two(m, k, "Es");
    At(Discriminator(m, l).OrAt(l))
  }

  // what may follow a mangled name

  /** A dot and one or more characters of a kind. */
  function Piece(m: string, i: nat, kind: char -> bool): (r: Parse)
    requires i <= |m|
    ensures r.Ahead(m, i)
  {
    var j :- Token(m, i, '.');
    Some(m, j, kind)
  }

  /** Any number of `.<alpha>+.<digit>+`, as GCC appends to cloned functions. */
  predicate CloneSuffix(m: string, i: nat)
    requires i <= |m|
    decreases |m| - i
  {
    i == |m| ||
    (Piece(m, i, IsAlpha).At? &&
     var j := Piece(m, i, IsAlpha).next;
     Piece(m, j, IsDigit).At? && CloneSuffix(m, Piece(m, j, IsDigit).next))
  }

  /** The whole of `m` is a mangled name, perhaps with a clone or a version suffix. */
  predicate Accepted(m: string) {
    MangledName(m, 0).At? &&
    var end := MangledName(m, 0).next;
    CloneSuffix(m, end) || (end < |m| && m[end] == '@')
  }
}
