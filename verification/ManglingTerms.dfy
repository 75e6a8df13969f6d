/** Terms for names, types, template arguments and expressions, printed as the C++ ABI mangles
    them, without a look at the parsers. The grammar is ambiguous for a parser that takes
    the first alternative that fits; the predicates say which terms are read in one way. */
module ManglingTerms {
  import M = Mangling

  // ------------------------------------------------------- terms

  /** An identifier: it does not start with a digit. */
  type Id = id: string | id != "" && !M.IsDigit(id[0]) witness "f"

  datatype Quals = Quals(restricted: bool, isVolatile: bool, isConst: bool)

  datatype Subst = FirstSub | SeqSub(id: string) | StdSub(c: char)

  datatype Param = FirstParam | NthParam(n: nat)

  datatype Offset = Plain(negative: bool, n: nat) | Virtual(negative: bool, n: nat, further: bool, k: nat)

  datatype Type =
    | Builtin(c: char)
    | VendorBuiltin(id: Id)
    | Qualified(q: Quals, t: Type)
    | Modified(c: char, t: Type)
    | Expansion(t: Type)
    | Decltype(c: char, e: Expr)
    | VendorQualified(id: Id, t: Type)
    | Function(external: bool, signature: Types)
    | Class(n: Name)
    | Array(size: nat, t: Type)
    | OpenArray(t: Type)
    | DependentArray(e: Expr, t: Type)
    | Member(class_: Type, t: Type)
    | ParamType(p: Param)
    | ParamInstance(p: Param, args: Args)
    | SubType(s: Subst)

  datatype Types = NoTypes | Types(head: Type, tail: Types)

  datatype Unqualified =
    | Operator(code: string)
    | Conversion(t: Type)
    | VendorOperator(arity: char, id: Id)
    | CtorDtor(kind: char, c: char)
    | Named(id: Id)
    | LocalNamed(id: Id)

  datatype Part = ParamPart(p: Param) | SubPart(s: Subst) | StdPart | NamePart(u: Unqualified)

  /** A prefix: parts, each perhaps with template arguments. */
  datatype Parts = NoParts | Parts(part: Part, args: Args, rest: Parts)

  datatype Name =
    | Nested(q: Quals, parts: Parts)
    | Local(e: Entity, n: Name)
    | Instance(std: bool, u: Unqualified, args: Args)
    | SubInstance(s: Subst, args: Args)
    | Unscoped(std: bool, u: Unqualified)

  datatype Arg = TypeArg(t: Type) | LiteralArg(l: Literal) | ExprArg(e: Expr) | PackArg(args: Args)

  datatype Args = NoArgs | Args(head: Arg, tail: Args)

  datatype Literal = Integer(t: Type, negative: bool, n: nat) | Float(t: Type, hex: string) | Address(e: Entity)

  datatype Expr =
    | ParamExpr(p: Param)
    | LiteralExpr(l: Literal)
    | Unary(code: string, e: Expr)
    | Binary(code: string, a: Expr, e: Expr)
    | Ternary(code: string, a: Expr, b: Expr, e: Expr)
    | Sizeof(t: Type)
    | Scoped(t: Type, id: Id, args: Args)

  /** What a mangled name stands for. */
  datatype Entity =
    | Object(n: Name, signature: Types)
    | StaticIn(e: Entity, n: Name, number: nat)
    | StringIn(e: Entity)
    | Table(c: char, t: Type)
    | GuardOf(n: Name)
    | Thunk(o: Offset, e: Entity)
    | CovariantThunk(o: Offset, p: Offset, e: Entity)
    | Construction(t: Type, offset: nat, u: Type)
    | TypeInfo(c: char, t: Type)
    | Temporary(n: Name)
    | Alias(e: Entity)

  // ------------------------------------------------------- printing

  function Digits(n: nat): (s: string)
    ensures s != "" && forall c | c in s :: M.IsDigit(c)
  {
    var last := ['0' + (n % 10) as char];
    if n < 10 then last else Digits(n / 10) + last
  }

  function Signed(negative: bool, n: nat): string { if negative then "n" + Digits(n) else Digits(n) }

  function Source(id: Id): string { Digits(|id|) + id }

  function PrintQuals(q: Quals): string {
    (if q.restricted then "r" else "") + (if q.isVolatile then "V" else "") + if q.isConst then "K" else ""
  }

  function PrintSub(s: Subst): string {
    match s
    case FirstSub => "S_"
    case SeqSub(id) => "S" + id + "_"
    case StdSub(c) => "S" + [c]
  }

  function PrintParam(p: Param): string {
    match p
    case FirstParam => "T_"
    case NthParam(n) => "T" + Digits(n) + "_"
  }

  function PrintOffset(o: Offset): string {
    match o
    case Plain(negative, n) => "h" + Signed(negative, n) + "_"
    case Virtual(negative, n, further, k) => "v" + Signed(negative, n) + "_" + Signed(further, k) + "_"
  }

  function PrintType(t: Type): string {
    match t
    case Builtin(c) => [c]
    case VendorBuiltin(id) => "u" + Source(id)
    case Qualified(q, u) => PrintQuals(q) + PrintType(u)
    case Modified(c, u) => [c] + PrintType(u)
    case Expansion(u) => "Dp" + PrintType(u)
    case Decltype(c, e) => "D" + [c] + PrintExpr(e) + "E"
    case VendorQualified(id, u) => "U" + Source(id) + PrintType(u)
    case Function(external, signature) => (if external then "FY" else "F") + PrintTypes(signature) + "E"
    case Class(n) => PrintName(n)
    case Array(size, u) => "A" + Digits(size) + "_" + PrintType(u)
    case OpenArray(u) => "A_" + PrintType(u)
    case DependentArray(e, u) => "A" + PrintExpr(e) + "_" + PrintType(u)
    case Member(c, u) => "M" + PrintType(c) + PrintType(u)
    case ParamType(p) => PrintParam(p)
    case ParamInstance(p, args) => PrintParam(p) + PrintArgs(args)
    case SubType(s) => PrintSub(s)
  }

  function PrintTypes(ts: Types): string {
    match ts
    case NoTypes => ""
    case Types(t, more) => PrintType(t) + PrintTypes(more)
  }

  function PrintUnqualified(u: Unqualified): string {
    match u
    case Operator(code) => code
    case Conversion(t) => "cv" + PrintType(t)
    case VendorOperator(arity, id) => "v" + [arity] + Source(id)
    case CtorDtor(kind, c) => [kind] + [c]
    case Named(id) => Source(id)
    case LocalNamed(id) => "L" + Source(id)
  }

  function PrintPart(p: Part): string {
    match p
    case ParamPart(q) => PrintParam(q)
    case SubPart(s) => PrintSub(s)
    case StdPart => "St"
    case NamePart(u) => PrintUnqualified(u)
  }

  function PrintParts(ps: Parts): string {
    match ps
    case NoParts => ""
    case Parts(p, args, rest) => PrintPart(p) + PrintArgs(args) + PrintParts(rest)
  }

  function PrintName(n: Name): string {
    match n
    case Nested(q, parts) => "N" + PrintQuals(q) + PrintParts(parts) + "E"
    case Local(e, k) => "Z" + PrintEntity(e) + "E" + PrintName(k)
    case Instance(std, u, args) => (if std then "St" else "") + PrintUnqualified(u) + PrintArgs(args)
    case SubInstance(s, args) => PrintSub(s) + PrintArgs(args)
    case Unscoped(std, u) => (if std then "St" else "") + PrintUnqualified(u)
  }

  function PrintArg(a: Arg): string {
    match a
    case TypeArg(t) => PrintType(t)
    case LiteralArg(l) => PrintLiteral(l)
    case ExprArg(e) => "X" + PrintExpr(e) + "E"
    case PackArg(args) => "I" + PrintList(args) + "E"
  }

  function PrintList(args: Args): string {
    match args
    case NoArgs => ""
    case Args(a, more) => PrintArg(a) + PrintList(more)
  }

  /** Template arguments, if there are any. */
  function PrintArgs(args: Args): string {
    match args
    case NoArgs => ""
    case Args(a, more) => "I" + (PrintArg(a) + PrintList(more)) + "E"
  }

  function PrintLiteral(l: Literal): string {
    match l
    case Integer(t, negative, n) => "L" + PrintType(t) + Signed(negative, n) + "E"
    case Float(t, hex) => "L" + PrintType(t) + hex + "E"
    case Address(e) => "L_Z" + PrintEntity(e) + "E"
  }

  function PrintExpr(e: Expr): string {
    match e
    case ParamExpr(p) => PrintParam(p)
    case LiteralExpr(l) => PrintLiteral(l)
    case Unary(code, f) => code + PrintExpr(f)
    case Binary(code, a, f) => code + PrintExpr(a) + PrintExpr(f)
    case Ternary(code, a, b, f) => code + PrintExpr(a) + PrintExpr(b) + PrintExpr(f)
    case Sizeof(t) => "st" + PrintType(t)
    case Scoped(t, id, args) => "sr" + PrintType(t) + Source(id) + PrintArgs(args)
  }

  function PrintEntity(e: Entity): string {
    match e
    case Object(n, signature) => PrintName(n) + PrintTypes(signature)
    case StaticIn(f, n, number) => "Z" + PrintEntity(f) + "E" + PrintName(n) + "_" + Digits(number)
    case StringIn(f) => "Z" + PrintEntity(f) + "Es"
    case Table(c, t) => "T" + [c] + PrintType(t)
    case GuardOf(n) => "GV" + PrintName(n)
    case Thunk(o, f) => "T" + PrintOffset(o) + PrintEntity(f)
    case CovariantThunk(o, p, f) => "Tc" + PrintOffset(o) + PrintOffset(p) + PrintEntity(f)
    case Construction(t, n, u) => "TC" + PrintType(t) + Digits(n) + "_" + PrintType(u)
    case TypeInfo(c, t) => "T" + [c] + PrintType(t)
    case Temporary(n) => "GR" + PrintName(n)
    case Alias(f) => "GA" + PrintEntity(f)
  }

  // ------------------------------------------------------- terms that are read in one way

  // the two-letter codes of the operators

  const FIRST_CODES: set<string> :=
    {"nw", "na", "dl", "da", "ps", "ng", "ad", "de", "co", "pl", "mi", "ml", "dv", "rm", "an", "or", "eo"}

  const MORE_CODES: set<string> :=
    {"aS", "pL", "mI", "mL", "dV", "rM", "aN", "oR", "eO", "ls", "rs", "lS", "rS", "eq", "ne", "lt"}

  const LAST_CODES: set<string> :=
    {"gt", "le", "ge", "nt", "aa", "oo", "pp", "mm", "cm", "pm", "pt", "cl", "ix", "qu", "st", "sz"}

  predicate Code(code: string) { code in FIRST_CODES || code in MORE_CODES || code in LAST_CODES }

  predicate Some(q: Quals) { q.restricted || q.isVolatile || q.isConst }

  predicate GoodSub(s: Subst) {
    match s
    case FirstSub => true
    case SeqSub(id) => id != "" && forall c | c in id :: M.IsSeq(c)
    case StdSub(c) => c in "absiod"
  }

  /** A name that can stand where a type may: an operator would be read as a builtin type. */
  predicate ClassName(u: Unqualified) { u.Named? || u.LocalNamed? }

  predicate GoodType(t: Type) {
    match t
    case Builtin(c) => c in "vwbcahstijlmxynofdegz"
    case VendorBuiltin(_) => true
    case Qualified(q, u) => Some(q) && !u.Qualified? && GoodType(u)
    case Modified(c, u) => c in "OPRCG" && GoodType(u)
    case Expansion(u) => GoodType(u)
    case Decltype(c, e) => c in "tT" && GoodExpr(e)
    case VendorQualified(_, u) => GoodType(u)
    case Function(_, signature) => signature.Types? && GoodTypes(signature)
    case Class(n) =>
      GoodName(n) && (n.Instance? ==> ClassName(n.u)) && (n.Unscoped? ==> ClassName(n.u))
    case Array(_, u) => GoodType(u)
    case OpenArray(u) => GoodType(u)
    case DependentArray(e, u) => GoodExpr(e) && GoodType(u) && !EndsInType(e)
    case Member(c, u) => GoodType(c) && GoodType(u)
    case ParamType(_) => true
    case ParamInstance(_, args) => args.Args? && GoodArgs(args)
    case SubType(s) => GoodSub(s)
  }

  predicate GoodTypes(ts: Types) {
    match ts
    case NoTypes => true
    case Types(t, more) => GoodType(t) && GoodTypes(more)
  }

  predicate GoodUnqualified(u: Unqualified) {
    match u
    case Operator(code) => Code(code)
    case Conversion(t) => GoodType(t)
    case VendorOperator(arity, _) => M.IsDigit(arity)
    case CtorDtor(kind, c) => (kind == 'C' && c in "123") || (kind == 'D' && c in "012")
    case Named(_) => true
    case LocalNamed(_) => true
  }

  /** An operator at the start of a prefix could be read as a qualifier, and the arguments of
      a conversion as those of its type. */
  predicate GoodParts(ps: Parts, first: bool) {
    match ps
    case NoParts => true
    case Parts(p, args, rest) =>
      && (p.SubPart? ==> GoodSub(p.s))
      && (p.NamePart? ==> GoodUnqualified(p.u) && (first ==> ClassName(p.u)) && (p.u.Conversion? ==> args.NoArgs?))
      && GoodArgs(args) && GoodParts(rest, false)
  }

  predicate GoodName(n: Name) {
    match n
    case Nested(_, parts) => GoodParts(parts, true)
    case Local(e, k) => GoodEntity(e) && GoodName(k)
    case Instance(_, u, args) => GoodUnqualified(u) && !u.Conversion? && args.Args? && GoodArgs(args)
    case SubInstance(s, args) => GoodSub(s) && args.Args? && GoodArgs(args)
    case Unscoped(_, u) => GoodUnqualified(u)
  }

  predicate GoodArg(a: Arg) {
    match a
    case TypeArg(t) => GoodType(t)
    case LiteralArg(l) => GoodLiteral(l)
    case ExprArg(e) => GoodExpr(e)
    case PackArg(args) => GoodArgs(args)
  }

  /** A pack behind a type could be read as the arguments of that type. */
  predicate GoodArgs(args: Args) {
    match args
    case NoArgs => true
    case Args(a, more) => GoodArg(a) && GoodArgs(more) && (a.TypeArg? && more.Args? ==> !more.head.PackArg?)
  }

  /** The type of a literal: 'L' and a digit or an 'n' could be read as a local name. */
  predicate GoodLiteral(l: Literal) {
    match l
    case Integer(t, _, _) => GoodType(t) && PrintType(t) != "" && !M.IsDigit(PrintType(t)[0]) && PrintType(t)[0] != 'n'
    case Float(t, hex) =>
      && GoodType(t) && PrintType(t) != "" && !M.IsDigit(PrintType(t)[0]) && PrintType(t)[0] != 'n'
      && hex != "" && forall c | c in hex :: M.IsHex(c)
    case Address(e) => GoodEntity(e)
  }

  predicate Atom(e: Expr) { e.ParamExpr? || e.LiteralExpr? }

  /** An operator takes as many operands as there are, so only the last one may be more than
      an atom; `st` is also the code of an operator. */
  predicate GoodExpr(e: Expr) {
    match e
    case ParamExpr(_) => true
    case LiteralExpr(l) => GoodLiteral(l)
    case Unary(code, f) => Code(code) && GoodExpr(f)
    case Binary(code, a, f) => Code(code) && Atom(a) && GoodExpr(a) && GoodExpr(f)
    case Ternary(code, a, b, f) => Code(code) && Atom(a) && GoodExpr(a) && Atom(b) && GoodExpr(b) && GoodExpr(f)
    case Sizeof(t) => GoodType(t) && PrintType(t) != "" && NoOperand(PrintType(t)[0])
    case Scoped(t, _, args) => GoodType(t) && GoodArgs(args)
  }

  /** An underscore behind a type could be read as the number of a local name. */
  predicate EndsInType(e: Expr) {
    match e
    case Unary(_, f) => EndsInType(f)
    case Binary(_, _, f) => EndsInType(f)
    case Ternary(_, _, _, f) => EndsInType(f)
    case _ => e.Sizeof?
  }

  predicate NoOperand(c: char) { !M.IsLower(c) && c != 'T' && c != 'L' }

  predicate GoodEntity(e: Entity) {
    match e
    case Object(n, signature) => GoodName(n) && GoodTypes(signature)
    case StaticIn(f, n, _) => GoodEntity(f) && GoodName(n) && PlainEnd(n)
    case StringIn(f) => GoodEntity(f)
    case Table(c, t) => c in "VTIS" && GoodType(t)
    case GuardOf(n) => GoodName(n)
    case Thunk(_, f) => GoodEntity(f)
    case CovariantThunk(_, _, f) => GoodEntity(f)
    case Construction(t, _, u) => GoodType(t) && GoodType(u)
    case TypeInfo(c, t) => c in "FJ" && GoodType(t)
    case Temporary(n) => GoodName(n)
    case Alias(f) => GoodEntity(f)
  }

  /** Only the number of the local entity itself may follow such a name. */
  predicate PlainEnd(n: Name) { n.Unscoped? && n.u.Named? }
}
