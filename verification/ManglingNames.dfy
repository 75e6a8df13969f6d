/** Names that the demangler accepts, whatever they are made of: every printed term is read
    to its end. */
module ManglingNames {
  import M = Mangling
  import opened ManglingTerms
  import opened ManglingSteps

  // ------------------------------------------------------- how terms start

  lemma SubStarts(s: Subst)
    ensures PrintSub(s) != "" && PrintSub(s)[0] == 'S'
  {
  }

  lemma ParamStarts(p: Param)
    ensures PrintParam(p) != "" && PrintParam(p)[0] == 'T'
  {
  }

  lemma NameStarts(n: Name)
    requires GoodName(n)
    ensures var s := PrintName(n);
            && s != "" && s[0] !in "I_"
            && (GoodType(Class(n)) ==> M.IsDigit(s[0]) || s[0] in "LNZS")
  {
    hide PrintParts, PrintEntity, PrintArgs, GoodArgs, GoodParts, GoodEntity, PrintUnqualified, GoodUnqualified,
         PrintSub;
    match n
    case Instance(_, u, _) => UnqualifiedStarts(u);
    case Unscoped(_, u) => UnqualifiedStarts(u);
    case SubInstance(s, _) => SubStarts(s);
    case _ =>
  }

  lemma TypeStarts(t: Type)
    requires GoodType(t)
    ensures var s := PrintType(t); s != "" && TypeLetter(s[0]) && (!t.Qualified? ==> s[0] !in "rVK")
  {
    hide PrintName, GoodName, PrintTypes, PrintExpr, GoodExpr, PrintArgs, GoodArgs, GoodTypes, Source, Digits,
         PrintSub, PrintParam, GoodSub, ClassName;
    match t
    case Builtin(c) => BuiltinStarts(c);
    case Class(n) => ClassStarts(n);
    case ParamType(p) => ParamStarts(p);
    case ParamInstance(p, _) => ParamStarts(p);
    case SubType(s) => SubStarts(s);
    case _ =>
  }

  /** No type starts with these. */
  predicate TypeLetter(c: char) { c !in "IEX_.@Y" }

  lemma BuiltinStarts(c: char)
    requires c in "vwbcahstijlmxynofdegz"
    ensures TypeLetter(c) && c !in "rVK"
  {
  }

  lemma ClassStarts(n: Name)
    requires GoodType(Class(n))
    ensures PrintName(n) != "" && (M.IsDigit(PrintName(n)[0]) || PrintName(n)[0] in "LNZS")
    ensures TypeLetter(PrintName(n)[0]) && PrintName(n)[0] !in "rVK"
  {
    hide PrintName;
    NameStarts(n);
  }

  lemma TypesStart(ts: Types)
    requires GoodTypes(ts)
    ensures var s := PrintTypes(ts); (s != "" <==> ts.Types?) && (s != "" ==> TypeLetter(s[0]))
  {
    hide PrintType, GoodType;
    if ts.Types? { TypeStarts(ts.head); }
  }

  lemma PartsStart(ps: Parts, first: bool)
    requires GoodParts(ps, first)
    ensures var s := PrintParts(ps);
            s != "" ==> s[0] !in "IE_" && (first ==> s[0] !in "rVK")
  {
    hide PrintArgs, GoodArgs, PrintUnqualified, GoodUnqualified, PrintSub, PrintParam, ClassName;
    if ps.Parts? {
      match ps.part
      case ParamPart(p) => ParamStarts(p);
      case SubPart(s) => SubStarts(s);
      case NamePart(u) => UnqualifiedStarts(u);
      case StdPart =>
    }
  }

  lemma LiteralStarts(l: Literal)
    requires GoodLiteral(l)
    ensures var s := PrintLiteral(l); |s| > 1 && s[0] == 'L' && !M.IsDigit(s[1]) && s[1] != 'n'
  {
    hide PrintType, PrintEntity, GoodType, GoodEntity, Signed;
  }

  lemma ArgStarts(a: Arg)
    requires GoodArg(a)
    ensures var s := PrintArg(a); s != "" && s[0] != '_' && s[0] != 'E' && (s[0] == 'I' <==> a.PackArg?)
  {
    hide PrintType, PrintLiteral, PrintExpr, PrintList, GoodType, GoodLiteral, GoodExpr, GoodArgs;
    match a
    case TypeArg(t) => TypeStarts(t);
    case LiteralArg(l) => LiteralStarts(l);
    case _ =>
  }

  /** An expression that an array size could start with is not read as a number. */
  lemma ExprIsNoNumber(m: string, i: nat, e: Expr)
    requires GoodExpr(e) && Has(m, i, PrintExpr(e))
    ensures i <= |m| && M.Number(m, i).Fail?
  {
    hide PrintParam, PrintLiteral, PrintType, PrintArgs, GoodLiteral, GoodType, GoodArgs, Source, Code;
    var s := PrintExpr(e);
    match e
    case ParamExpr(p) => ParamStarts(p); HasAt(m, i, s, 0); NoNumber(m, i);
    case LiteralExpr(l) => LiteralStarts(l); HasAt(m, i, s, 0); NoNumber(m, i);
    case Sizeof(t) => HasAt(m, i, s, 0); NoNumber(m, i);
    case Scoped(t, id, args) => HasAt(m, i, s, 0); NoNumber(m, i);
    case Unary(code, f) => CodeIsNoNumber(m, i, code, PrintExpr(f));
    case Binary(code, a, f) => assert s == code + (PrintExpr(a) + PrintExpr(f)); CodeIsNoNumber(m, i, code, PrintExpr(a) + PrintExpr(f));
    case Ternary(code, a, b, f) =>
      assert s == code + (PrintExpr(a) + PrintExpr(b) + PrintExpr(f));
      CodeIsNoNumber(m, i, code, PrintExpr(a) + PrintExpr(b) + PrintExpr(f));
  }

  lemma CodeIsNoNumber(m: string, i: nat, code: string, more: string)
    requires Code(code) && Has(m, i, code + more)
    ensures i <= |m| && M.Number(m, i).Fail?
  {
    CodeLetters(code);
    HasAt(m, i, code + more, 0);
    HasAt(m, i, code + more, 1);
    hide Code, Has;
  }

  lemma UnsignedReads(m: string, i: nat, n: nat)
    requires Has(m, i, Digits(n)) && (i + |Digits(n)| < |m| ==> !M.IsDigit(m[i + |Digits(n)|]))
    ensures M.Number(m, i) == M.At(i + |Digits(n)|) && i < |m| && M.IsDigit(m[i])
  {
    hide M.Number, Digits, Has;
    assert Signed(false, n) == Digits(n) && Digits(n)[0] in Digits(n);
    HasAt(m, i, Digits(n), 0);
    SignedReads(m, i, false, n);
  }

  // ------------------------------------------------------- terms are read back

  lemma {:induction false} TypeReads(m: string, i: nat, t: Type)
    requires GoodType(t) && Has(m, i, PrintType(t)) && Follow(m, i + |PrintType(t)|)
    ensures M.Type(m, i) == M.At(i + |PrintType(t)|)
    decreases t, 1
  {
    hide M.Type, M.Types, M.Name, M.Expression, M.Encoding, M.TemplateArgs, M.ArgList, M.BareFunctionType,
         M.Number, M.SourceName, M.CVQualifiers, M.Substitution, M.TemplateParam, M.UnqualifiedName,
         M.UnscopedName, Digits, Source, Has, PrintTypes, PrintUnqualified, PrintPart, PrintParts, PrintName,
         PrintArg, PrintList, PrintArgs, PrintLiteral, PrintExpr, PrintEntity, PrintQuals, PrintSub, PrintParam,
         PrintOffset, Signed, GoodTypes, GoodUnqualified, GoodParts, GoodName, GoodArg, GoodArgs, GoodLiteral,
         GoodExpr, GoodEntity, GoodSub;
    var end := i + |PrintType(t)|;
    match t
    case Class(n) =>
      ClassStarts(n);
      HasAt(m, i, PrintName(n), 0);
      NameReads(m, i, n);
      NameIsType(m, i, end);
    case Function(_, _) => FunctionReads(m, i, t);
    case Array(_, _) => ArrayReads(m, i, t);
    case OpenArray(_) => OpenArrayReads(m, i, t);
    case DependentArray(_, _) => DependentArrayReads(m, i, t);
    case Member(_, _) => MemberReads(m, i, t);
    case ParamInstance(_, _) => ParamInstanceReads(m, i, t);
    case Decltype(_, _) => DecltypeReads(m, i, t);
    case Qualified(_, _) => QualifiedReads(m, i, t);
    case Modified(_, _) => ModifiedReads(m, i, t);
    case Expansion(_) => ModifiedReads(m, i, t);
    case VendorQualified(_, _) => ModifiedReads(m, i, t);
    case _ => LeafReads(m, i, t);
  }

  lemma {:induction false} LeafReads(m: string, i: nat, t: Type)
    requires t.Builtin? || t.VendorBuiltin? || t.ParamType? || t.SubType?
    requires GoodType(t) && Has(m, i, PrintType(t)) && Follow(m, i + |PrintType(t)|)
    ensures M.Type(m, i) == M.At(i + |PrintType(t)|)
    decreases t, 0
  {
    hide M.Type, M.Types, M.Name, M.Expression, M.Encoding, M.TemplateArgs, M.ArgList, M.BareFunctionType,
         M.Number, M.SourceName, M.CVQualifiers, M.Substitution, M.TemplateParam, M.UnqualifiedName,
         M.UnscopedName, Digits, Source, Has, PrintTypes, PrintUnqualified, PrintPart, PrintParts, PrintName,
         PrintArg, PrintList, PrintArgs, PrintLiteral, PrintExpr, PrintEntity, PrintQuals, PrintSub, PrintParam,
         PrintOffset, Signed, GoodTypes, GoodUnqualified, GoodParts, GoodName, GoodArg, GoodArgs, GoodLiteral,
         GoodExpr, GoodEntity, GoodSub;
    var end := i + |PrintType(t)|;
    match t
    case Builtin(c) => HasAt(m, i, [c], 0); BuiltinIsType(m, i);
    case VendorBuiltin(id) =>
      HasTwo(m, i, "u", Source(id));
      HasAt(m, i, "u", 0);
      SourceReads(m, i + 1, id);
      VendorBuiltinIsType(m, i, end);
    case ParamType(p) =>
      ParamReads(m, i, p);
      NoTemplateArgs(m, end);
      ParamIsType(m, i, end);
    case SubType(s) =>
      SubReads(m, i, s);
      NoTemplateArgs(m, end);
      SubIsType(m, i, end);
  }

  lemma {:induction false} MemberReads(m: string, i: nat, t: Type)
    requires t.Member? && GoodType(t) && Has(m, i, PrintType(t)) && Follow(m, i + |PrintType(t)|)
    ensures M.Type(m, i) == M.At(i + |PrintType(t)|)
    decreases t, 0
  {
    hide M.Type, M.Types, M.Name, M.Expression, M.Encoding, M.TemplateArgs, M.ArgList, M.BareFunctionType,
         M.Number, M.SourceName, M.CVQualifiers, M.Substitution, M.TemplateParam, M.UnqualifiedName,
         M.UnscopedName, Digits, Source, Has, PrintTypes, PrintUnqualified, PrintPart, PrintParts, PrintName,
         PrintArg, PrintList, PrintArgs, PrintLiteral, PrintExpr, PrintEntity, PrintQuals, PrintSub, PrintParam,
         PrintOffset, Signed, GoodTypes, GoodUnqualified, GoodParts, GoodName, GoodArg, GoodArgs, GoodLiteral,
         GoodExpr, GoodEntity, GoodSub;
    var c, u := PrintType(t.class_), PrintType(t.t);
    var j := i + 1 + |c|;
    HasThree(m, i, "M", c, u);
    HasAt(m, i, "M", 0);
    TypeStarts(t.t);
    HasAt(m, j, u, 0);
    TypeReads(m, i + 1, t.class_);
    TypeReads(m, j, t.t);
    MemberIsType(m, i, j, j + |u|);
  }

  lemma {:induction false} ParamInstanceReads(m: string, i: nat, t: Type)
    requires t.ParamInstance? && GoodType(t) && Has(m, i, PrintType(t))
    ensures M.Type(m, i) == M.At(i + |PrintType(t)|)
    decreases t, 0
  {
    hide M.Type, M.Types, M.Name, M.Expression, M.Encoding, M.TemplateArgs, M.ArgList, M.BareFunctionType,
         M.Number, M.SourceName, M.CVQualifiers, M.Substitution, M.TemplateParam, M.UnqualifiedName,
         M.UnscopedName, Digits, Source, Has, PrintTypes, PrintUnqualified, PrintPart, PrintParts, PrintName,
         PrintArg, PrintList, PrintArgs, PrintLiteral, PrintExpr, PrintEntity, PrintQuals, PrintSub, PrintParam,
         PrintOffset, Signed, GoodTypes, GoodUnqualified, GoodParts, GoodName, GoodArg, GoodArgs, GoodLiteral,
         GoodExpr, GoodEntity, GoodSub;
    var p, args := PrintParam(t.p), PrintArgs(t.args);
    HasTwo(m, i, p, args);
    ParamReads(m, i, t.p);
    ArgsRead(m, i + |p|, t.args);
    ParamInstanceIsType(m, i, i + |p|, i + |p| + |args|);
  }

  lemma {:induction false} ModifiedReads(m: string, i: nat, t: Type)
    requires GoodType(t) && Has(m, i, PrintType(t)) && Follow(m, i + |PrintType(t)|)
    requires t.Modified? || t.Expansion? || t.VendorQualified?
    ensures M.Type(m, i) == M.At(i + |PrintType(t)|)
    decreases t, 0
  {
    hide M.Type, M.Types, M.Name, M.Expression, M.Encoding, M.TemplateArgs, M.ArgList, M.BareFunctionType,
         M.Number, M.SourceName, M.CVQualifiers, M.Substitution, M.TemplateParam, M.UnqualifiedName,
         M.UnscopedName, Digits, Source, Has, PrintTypes, PrintUnqualified, PrintPart, PrintParts, PrintName,
         PrintArg, PrintList, PrintArgs, PrintLiteral, PrintExpr, PrintEntity, PrintQuals, PrintSub, PrintParam,
         PrintOffset, Signed, GoodTypes, GoodUnqualified, GoodParts, GoodName, GoodArg, GoodArgs, GoodLiteral,
         GoodExpr, GoodEntity, GoodSub;
    var end := i + |PrintType(t)|;
    match t
    case Modified(c, u) =>
      HasTwo(m, i, [c], PrintType(u));
      HasAt(m, i, [c], 0);
      TypeReads(m, i + 1, u);
      LetterIsType(m, i, end);
    case Expansion(u) =>
      HasTwo(m, i, "Dp", PrintType(u));
      TypeReads(m, i + 2, u);
      ExpansionIsType(m, i, end);
    case VendorQualified(id, u) =>
      HasThree(m, i, "U", Source(id), PrintType(u));
      HasAt(m, i, "U", 0);
      SourceReads(m, i + 1, id);
      TypeReads(m, i + 1 + |Source(id)|, u);
      VendorIsType(m, i, i + 1 + |Source(id)|, end);
  }

  lemma {:induction false} QualifiedReads(m: string, i: nat, t: Type)
    requires t.Qualified? && GoodType(t) && Has(m, i, PrintType(t)) && Follow(m, i + |PrintType(t)|)
    ensures M.Type(m, i) == M.At(i + |PrintType(t)|)
    decreases t, 0
  {
    hide M.Type, M.Types, M.Name, M.Expression, M.Encoding, M.TemplateArgs, M.ArgList, M.BareFunctionType,
         M.Number, M.SourceName, M.CVQualifiers, M.Substitution, M.TemplateParam, M.UnqualifiedName,
         M.UnscopedName, Digits, Source, Has, PrintTypes, PrintUnqualified, PrintPart, PrintParts, PrintName,
         PrintArg, PrintList, PrintArgs, PrintLiteral, PrintExpr, PrintEntity, PrintQuals, PrintSub, PrintParam,
         PrintOffset, Signed, GoodTypes, GoodUnqualified, GoodParts, GoodName, GoodArg, GoodArgs, GoodLiteral,
         GoodExpr, GoodEntity, GoodSub;
    var q, u := PrintQuals(t.q), PrintType(t.t);
    HasTwo(m, i, q, u);
    TypeStarts(t.t);
    HasAt(m, i + |q|, u, 0);
    QualsRead(m, i, t.q);
    TypeReads(m, i + |q|, t.t);
    QualifiedIsType(m, i, i + |q|, i + |q| + |u|);
  }

  lemma {:induction false} DecltypeReads(m: string, i: nat, t: Type)
    requires t.Decltype? && GoodType(t) && Has(m, i, PrintType(t))
    ensures M.Type(m, i) == M.At(i + |PrintType(t)|)
    decreases t, 0
  {
    hide M.Type, M.Types, M.Name, M.Expression, M.Encoding, M.TemplateArgs, M.ArgList, M.BareFunctionType,
         M.Number, M.SourceName, M.CVQualifiers, M.Substitution, M.TemplateParam, M.UnqualifiedName,
         M.UnscopedName, Digits, Source, Has, PrintTypes, PrintUnqualified, PrintPart, PrintParts, PrintName,
         PrintArg, PrintList, PrintArgs, PrintLiteral, PrintExpr, PrintEntity, PrintQuals, PrintSub, PrintParam,
         PrintOffset, Signed, GoodTypes, GoodUnqualified, GoodParts, GoodName, GoodArg, GoodArgs, GoodLiteral,
         GoodExpr, GoodEntity, GoodSub;
    var e := PrintExpr(t.e);
    HasFour(m, i, "D", [t.c], e, "E");
    HasAt(m, i, "D", 0);
    HasAt(m, i + 1, [t.c], 0);
    HasAt(m, i + 2 + |e|, "E", 0);
    ExprReads(m, i + 2, t.e);
    DecltypeIsType(m, i, i + 2 + |e|);
  }

  lemma {:induction false} FunctionReads(m: string, i: nat, t: Type)
    requires t.Function? && GoodType(t) && Has(m, i, PrintType(t))
    ensures M.Type(m, i) == M.At(i + |PrintType(t)|)
    decreases t, 0
  {
    hide M.Type, M.Types, M.Name, M.Expression, M.Encoding, M.TemplateArgs, M.ArgList, M.BareFunctionType,
         M.Number, M.SourceName, M.CVQualifiers, M.Substitution, M.TemplateParam, M.UnqualifiedName,
         M.UnscopedName, Digits, Source, Has, PrintTypes, PrintUnqualified, PrintPart, PrintParts, PrintName,
         PrintArg, PrintList, PrintArgs, PrintLiteral, PrintExpr, PrintEntity, PrintQuals, PrintSub, PrintParam,
         PrintOffset, Signed, GoodTypes, GoodUnqualified, GoodParts, GoodName, GoodArg, GoodArgs, GoodLiteral,
         GoodExpr, GoodEntity, GoodSub;
    var f, ts := if t.external then "FY" else "F", PrintTypes(t.signature);
    var j, k := i + |f|, i + |f| + |ts|;
    HasThree(m, i, f, ts, "E");
    HasAt(m, i, f, 0);
    if t.external { HasAt(m, i, f, 1); }
    TypesStart(t.signature);
    HasAt(m, j, ts, 0);
    HasAt(m, k, "E", 0);
    TypesRead(m, j, t.signature);
    BareFunctionReads(m, j, k);
    FunctionIsType(m, i, j, k);
  }

  lemma BareFunctionReads(m: string, j: nat, k: nat)
    requires j < k && j <= |m| && M.Types(m, j) == M.At(k)
    ensures M.BareFunctionType(m, j) == M.At(k)
  {
    hide M.Types;
  }

  lemma {:induction false} ArrayReads(m: string, i: nat, t: Type)
    requires t.Array? && GoodType(t) && Has(m, i, PrintType(t)) && Follow(m, i + |PrintType(t)|)
    ensures M.Type(m, i) == M.At(i + |PrintType(t)|)
    decreases t, 0
  {
    hide M.Type, M.Types, M.Name, M.Expression, M.Encoding, M.TemplateArgs, M.ArgList, M.BareFunctionType,
         M.Number, M.SourceName, M.CVQualifiers, M.Substitution, M.TemplateParam, M.UnqualifiedName,
         M.UnscopedName, Digits, Source, Has, PrintTypes, PrintUnqualified, PrintPart, PrintParts, PrintName,
         PrintArg, PrintList, PrintArgs, PrintLiteral, PrintExpr, PrintEntity, PrintQuals, PrintSub, PrintParam,
         PrintOffset, Signed, GoodTypes, GoodUnqualified, GoodParts, GoodName, GoodArg, GoodArgs, GoodLiteral,
         GoodExpr, GoodEntity, GoodSub;
    var d, u := Digits(t.size), PrintType(t.t);
    var j := i + 1 + |d|;
    HasFour(m, i, "A", d, "_", u);
    HasAt(m, i, "A", 0);
    HasAt(m, j, "_", 0);
    UnsignedReads(m, i + 1, t.size);
    TypeReads(m, j + 1, t.t);
    SizedIsArray(m, i, j, j + 1 + |u|);
  }

  lemma {:induction false} OpenArrayReads(m: string, i: nat, t: Type)
    requires t.OpenArray? && GoodType(t) && Has(m, i, PrintType(t)) && Follow(m, i + |PrintType(t)|)
    ensures M.Type(m, i) == M.At(i + |PrintType(t)|)
    decreases t, 0
  {
    hide M.Type, M.Types, M.Name, M.Expression, M.Encoding, M.TemplateArgs, M.ArgList, M.BareFunctionType,
         M.Number, M.SourceName, M.CVQualifiers, M.Substitution, M.TemplateParam, M.UnqualifiedName,
         M.UnscopedName, Digits, Source, Has, PrintTypes, PrintUnqualified, PrintPart, PrintParts, PrintName,
         PrintArg, PrintList, PrintArgs, PrintLiteral, PrintExpr, PrintEntity, PrintQuals, PrintSub, PrintParam,
         PrintOffset, Signed, GoodTypes, GoodUnqualified, GoodParts, GoodName, GoodArg, GoodArgs, GoodLiteral,
         GoodExpr, GoodEntity, GoodSub;
    var u := PrintType(t.t);
    HasTwo(m, i, "A_", u);
    HasAt(m, i, "A_", 0);
    HasAt(m, i, "A_", 1);
    NoNumber(m, i + 1);
    NoExpr(m, i + 1);
    TypeReads(m, i + 2, t.t);
    UnsizedIsArray(m, i, i + 1, i + 2 + |u|);
  }

  lemma {:induction false} DependentArrayReads(m: string, i: nat, t: Type)
    requires t.DependentArray? && GoodType(t) && Has(m, i, PrintType(t)) && Follow(m, i + |PrintType(t)|)
    ensures M.Type(m, i) == M.At(i + |PrintType(t)|)
    decreases t, 0
  {
    hide M.Type, M.Types, M.Name, M.Expression, M.Encoding, M.TemplateArgs, M.ArgList, M.BareFunctionType,
         M.Number, M.SourceName, M.CVQualifiers, M.Substitution, M.TemplateParam, M.UnqualifiedName,
         M.UnscopedName, Digits, Source, Has, PrintTypes, PrintUnqualified, PrintPart, PrintParts, PrintName,
         PrintArg, PrintList, PrintArgs, PrintLiteral, PrintExpr, PrintEntity, PrintQuals, PrintSub, PrintParam,
         PrintOffset, Signed, GoodTypes, GoodUnqualified, GoodParts, GoodName, GoodArg, GoodArgs, GoodLiteral,
         GoodExpr, GoodEntity, GoodSub;
    var e, u := PrintExpr(t.e), PrintType(t.t);
    var j := i + 1 + |e|;
    HasFour(m, i, "A", e, "_", u);
    HasAt(m, i, "A", 0);
    HasAt(m, j, "_", 0);
    ExprIsNoNumber(m, i + 1, t.e);
    ExprReads(m, i + 1, t.e);
    TypeReads(m, j + 1, t.t);
    UnsizedIsArray(m, i, j, j + 1 + |u|);
  }

  lemma {:induction false} TypesRead(m: string, i: nat, ts: Types)
    requires GoodTypes(ts) && Has(m, i, PrintTypes(ts)) && Over(m, i + |PrintTypes(ts)|)
    ensures M.Types(m, i) == M.At(i + |PrintTypes(ts)|)
    decreases ts
  {
    hide M.Type, M.Types, M.Name, M.Expression, M.Encoding, M.TemplateArgs, M.ArgList, M.BareFunctionType,
         M.Number, M.SourceName, M.CVQualifiers, M.Substitution, M.TemplateParam, M.UnqualifiedName,
         M.UnscopedName, Digits, Source, Has, PrintType, PrintUnqualified, PrintPart, PrintParts, PrintName,
         PrintArg, PrintList, PrintArgs, PrintLiteral, PrintExpr, PrintEntity, PrintQuals, PrintSub, PrintParam,
         PrintOffset, Signed, GoodType, GoodUnqualified, GoodParts, GoodName, GoodArg, GoodArgs, GoodLiteral,
         GoodExpr, GoodEntity, GoodSub;
    match ts
    case NoTypes => NothingOver(m, i);
    case Types(t, more) =>
      var j := i + |PrintType(t)|;
      HasTwo(m, i, PrintType(t), PrintTypes(more));
      TypesStart(more);
      if more.Types? { HasAt(m, j, PrintTypes(more), 0); }
      TypeReads(m, i, t);
      TypesRead(m, j, more);
      TypesStep(m, i, j);
  }

  lemma TypesStep(m: string, i: nat, j: nat)
    requires i <= |m| && M.Type(m, i) == M.At(j)
    ensures M.Types(m, i) == M.Types(m, j)
  {
    hide M.Type;
  }

  // names

  /** What may follow the name: arguments would be its own, and a number that of a local one. */
  predicate FollowsName(m: string, i: nat, n: Name) {
    i <= |m| && (i < |m| ==> m[i] != 'I' && (m[i] != '_' || PlainEnd(n)))
  }

  lemma {:induction false} NameReads(m: string, i: nat, n: Name)
    requires GoodName(n) && Has(m, i, PrintName(n)) && FollowsName(m, i + |PrintName(n)|, n)
    ensures M.Name(m, i) == M.At(i + |PrintName(n)|)
    decreases n, 1
  {
    hide M.Type, M.Types, M.Name, M.Expression, M.Encoding, M.TemplateArgs, M.ArgList, M.BareFunctionType,
         M.Number, M.SourceName, M.CVQualifiers, M.Substitution, M.TemplateParam, M.UnqualifiedName,
         M.UnscopedName, Digits, Source, Has, PrintType, PrintTypes, PrintUnqualified, PrintPart, PrintParts,
         PrintArg, PrintList, PrintArgs, PrintLiteral, PrintExpr, PrintEntity, PrintQuals, PrintSub, PrintParam,
         PrintOffset, Signed, GoodType, GoodTypes, GoodUnqualified, GoodParts, GoodArg, GoodArgs, GoodLiteral,
         GoodExpr, GoodEntity, GoodSub;
    var end := i + |PrintName(n)|;
    match n
    case Nested(_, _) => NestedReads(m, i, n);
    case Local(e, k) =>
      var x := i + 1 + |PrintEntity(e)|;
      HasFour(m, i, "Z", PrintEntity(e), "E", PrintName(k));
      HasAt(m, i, "Z", 0);
      HasAt(m, x, "E", 0);
      EntityReads(m, i + 1, e);
      NameReads(m, x + 1, k);
      LocalIsName(m, i, x, end);
    case SubInstance(s, args) =>
      HasTwo(m, i, PrintSub(s), PrintArgs(args));
      SubReads(m, i, s);
      ArgsRead(m, i + |PrintSub(s)|, args);
      SubIsTemplate(m, i, i + |PrintSub(s)|);
      InstanceIsName(m, i, i + |PrintSub(s)|, end);
    case _ => UnscopedNameReads(m, i, n);
  }

  lemma {:induction false} NestedReads(m: string, i: nat, n: Name)
    requires n.Nested? && GoodName(n) && Has(m, i, PrintName(n))
    ensures M.Name(m, i) == M.At(i + |PrintName(n)|)
    decreases n, 0
  {
    hide M.Type, M.Types, M.Name, M.Expression, M.Encoding, M.TemplateArgs, M.ArgList, M.BareFunctionType,
         M.Number, M.SourceName, M.CVQualifiers, M.Substitution, M.TemplateParam, M.UnqualifiedName,
         M.UnscopedName, Digits, Source, Has, PrintType, PrintTypes, PrintUnqualified, PrintPart, PrintParts,
         PrintArg, PrintList, PrintArgs, PrintLiteral, PrintExpr, PrintEntity, PrintQuals, PrintSub, PrintParam,
         PrintOffset, Signed, GoodType, GoodTypes, GoodUnqualified, GoodParts, GoodArg, GoodArgs, GoodLiteral,
         GoodExpr, GoodEntity, GoodSub;
    var q, parts := PrintQuals(n.q), PrintParts(n.parts);
    var j, k := i + 1 + |q|, i + 1 + |q| + |parts|;
    HasFour(m, i, "N", q, parts, "E");
    HasAt(m, i, "N", 0);
    HasAt(m, k, "E", 0);
    PartsStart(n.parts, true);
    if parts != "" { HasAt(m, j, parts, 0); }
    QualsRead(m, i + 1, n.q);
    EmptyQuals(n.q);
    PartsRead(m, j, n.parts, false, true);
    NestedIsName(m, i, j, k);
  }

  lemma EmptyQuals(q: Quals)
    ensures !Some(q) ==> PrintQuals(q) == ""
  {
  }

  lemma SubIsTemplate(m: string, i: nat, j: nat)
    requires i <= |m| && M.Substitution(m, i) == M.At(j) && M.UnscopedName(m, i).Fail?
    ensures M.UnscopedTemplateName(m, i) == M.At(j)
  {
    hide M.Substitution, M.UnscopedName;
  }

  lemma {:induction false} UnscopedNameReads(m: string, i: nat, n: Name)
    requires n.Instance? || n.Unscoped?
    requires GoodName(n) && Has(m, i, PrintName(n)) && FollowsName(m, i + |PrintName(n)|, n)
    ensures M.Name(m, i) == M.At(i + |PrintName(n)|)
    decreases n, 0
  {
    hide M.Type, M.Types, M.Name, M.Expression, M.Encoding, M.TemplateArgs, M.ArgList, M.BareFunctionType,
         M.Number, M.SourceName, M.CVQualifiers, M.Substitution, M.TemplateParam, M.UnqualifiedName,
         M.UnscopedName, Digits, Source, Has, PrintUnqualified, PrintType, PrintTypes, PrintPart, PrintParts,
         PrintArg, PrintList, PrintArgs, PrintLiteral, PrintExpr, PrintEntity, PrintQuals, PrintSub, PrintParam,
         PrintOffset, Signed, GoodType, GoodTypes, GoodUnqualified, GoodParts, GoodArg, GoodArgs, GoodLiteral,
         GoodExpr, GoodEntity, GoodSub;
    var end, st, u := i + |PrintName(n)|, if n.std then "St" else "", PrintUnqualified(n.u);
    var j, k := i + |st|, i + |st| + |u|;
    UnqualifiedStarts(n.u);
    if n.Instance? {
      HasThree(m, i, st, u, PrintArgs(n.args));
      ArgsPrinted(n.args);
      HasAt(m, k, PrintArgs(n.args), 0);
      ArgsRead(m, k, n.args);
    } else {
      HasTwo(m, i, st, u);
      NoTemplateArgs(m, k);
    }
    HasAt(m, j, u, 0);
    if n.std { HasAt(m, i, st, 0); }
    if n.u.Conversion? { ConvertedReads(m, j, n.u); }
    UnqualifiedReads(m, j, n.u);
    UnscopedReads(m, i, n.std, k);
    UnscopedIsTemplate(m, i, k);
    if n.Instance? { InstanceIsName(m, i, k, end); } else { UnscopedIsName(m, i, k); }
  }

  lemma UnscopedIsTemplate(m: string, i: nat, j: nat)
    requires i <= |m| && M.UnscopedName(m, i) == M.At(j)
    ensures M.UnscopedTemplateName(m, i) == M.At(j)
  {
    hide M.UnscopedName;
  }

  lemma ArgsPrinted(args: Args)
    requires args.Args?
    ensures PrintArgs(args) != "" && PrintArgs(args)[0] == 'I'
  {
    hide PrintArg, PrintList;
  }

  lemma {:induction false} ConvertedReads(m: string, i: nat, u: Unqualified)
    requires u.Conversion? && GoodUnqualified(u) && Has(m, i, PrintUnqualified(u)) && Follow(m, i + |PrintUnqualified(u)|)
    ensures M.Type(m, i + 2) == M.At(i + |PrintUnqualified(u)|)
    decreases u
  {
    hide M.Type, Has;
    HasTwo(m, i, "cv", PrintType(u.t));
    TypeReads(m, i + 2, u.t);
  }

  lemma {:induction false} PartsRead(m: string, i: nat, ps: Parts, has: bool, first: bool)
    requires GoodParts(ps, first) && Has(m, i, PrintParts(ps))
    requires i + |PrintParts(ps)| < |m| && m[i + |PrintParts(ps)|] == 'E'
    ensures M.Prefix(m, i, has) == M.At(i + |PrintParts(ps)|)
    decreases ps
  {
    hide M.Type, M.Types, M.Name, M.Expression, M.Encoding, M.TemplateArgs, M.ArgList, M.BareFunctionType,
         M.Number, M.SourceName, M.CVQualifiers, M.Substitution, M.TemplateParam, M.UnqualifiedName,
         M.UnscopedName, Digits, Source, Has, M.Component, M.Prefix, PrintType, PrintTypes, PrintUnqualified,
         PrintName, PrintArg, PrintList, PrintLiteral, PrintExpr, PrintEntity, PrintQuals, PrintSub, PrintParam,
         PrintOffset, Signed, GoodType, GoodTypes, GoodUnqualified, GoodName, GoodArg, GoodArgs, GoodLiteral,
         GoodExpr, GoodEntity, GoodSub;
    match ps
    case NoParts =>
      NoComponent(m, i);
      NoTemplateArgs(m, i);
      PrefixEnds(m, i, has);
    case Parts(p, args, rest) =>
      var j, k := i + |PrintPart(p)|, i + |PrintPart(p)| + |PrintArgs(args)|;
      HasThree(m, i, PrintPart(p), PrintArgs(args), PrintParts(rest));
      PartsStart(rest, false);
      if PrintParts(rest) != "" { HasAt(m, k, PrintParts(rest), 0); }
      if args.Args? { ArgsPrinted(args); HasAt(m, j, PrintArgs(args), 0); }
      if p.NamePart? && p.u.Conversion? { ConvertedReads(m, i, p.u); }
      PartReads(m, i, p);
      PrefixPart(m, i, j, has);
      if args.Args? {
        NoComponent(m, j);
        ArgsRead(m, j, args);
        PrefixArgs(m, j, k);
        PartsRead(m, k, rest, false, false);
      } else {
        PartsRead(m, j, rest, true, false);
      }
  }

  lemma PartReads(m: string, i: nat, p: Part)
    requires Has(m, i, PrintPart(p)) && (p.SubPart? ==> GoodSub(p.s)) && (p.NamePart? ==> GoodUnqualified(p.u))
    requires p.NamePart? && p.u.Conversion? ==> i + 2 <= |m| && M.Type(m, i + 2) == M.At(i + |PrintPart(p)|)
    requires i + |PrintPart(p)| < |m| ==> m[i + |PrintPart(p)|] != '_'
    ensures M.Component(m, i) == M.At(i + |PrintPart(p)|)
  {
    hide M.TemplateParam, M.Substitution, M.UnscopedName, M.UnqualifiedName, M.Type, PrintUnqualified, PrintSub,
         PrintParam, Has;
    match p
    case ParamPart(q) => ParamReads(m, i, q);
    case SubPart(s) => SubReads(m, i, s); NoParamOrLiteral(m, i);
    case StdPart =>
      HasAt(m, i, "St", 0);
      StdReads(m, i);
      NoParamOrLiteral(m, i);
    case NamePart(u) =>
      UnqualifiedStarts(u);
      HasAt(m, i, PrintUnqualified(u), 0);
      UnqualifiedReads(m, i, u);
      assert Has(m, i, PrintUnqualified(u));
      HasBounds(m, i, PrintUnqualified(u));
      UnscopedReads(m, i, false, i + |PrintUnqualified(u)|);
      NoSubstitution(m, i);
      NoParam(m, i);
  }

  lemma NoParam(m: string, i: nat)
    requires i < |m| && m[i] != 'T'
    ensures M.TemplateParam(m, i).Fail?
  {
  }

  lemma NoSubstitution(m: string, i: nat)
    requires i < |m| && m[i] != 'S'
    ensures M.Substitution(m, i).Fail?
  {
  }

  lemma StdReads(m: string, i: nat)
    requires Has(m, i, "St")
    ensures M.Substitution(m, i) == M.At(i + 2)
  {
    hide M.Keys, Has;
    BuiltinCodes();
    HasAt(m, i, "St", 0);
    HasAt(m, i, "St", 1);
    assert M.Span(m, i + 1, M.IsSeq) == i + 1;
  }

  // template arguments

  lemma {:induction false} ArgsRead(m: string, i: nat, args: Args)
    requires args.Args? && GoodArgs(args) && Has(m, i, PrintArgs(args))
    ensures M.TemplateArgs(m, i) == M.At(i + |PrintArgs(args)|)
    decreases args, 1
  {
    hide M.Type, M.Types, M.Name, M.Expression, M.Encoding, M.TemplateArgs, M.ArgList, M.BareFunctionType,
         M.Number, M.SourceName, M.CVQualifiers, M.Substitution, M.TemplateParam, M.UnqualifiedName,
         M.UnscopedName, Digits, Source, Has, PrintArg, PrintType, PrintTypes, PrintUnqualified, PrintPart,
         PrintParts, PrintName, PrintLiteral, PrintExpr, PrintEntity, PrintQuals, PrintSub, PrintParam,
         PrintOffset, Signed, GoodType, GoodTypes, GoodUnqualified, GoodParts, GoodName, GoodArg, GoodLiteral,
         GoodExpr, GoodEntity, GoodSub;
    var list := PrintList(args);
    HasThree(m, i, "I", list, "E");
    HasAt(m, i, "I", 0);
    HasAt(m, i + 1 + |list|, "E", 0);
    ArgStarts(args.head);
    ListReads(m, i + 1, args);
    ListIsArgs(m, i, i + 1 + |list|);
  }

  lemma {:induction false} ListReads(m: string, i: nat, args: Args)
    requires GoodArgs(args) && Has(m, i, PrintList(args)) && i + |PrintList(args)| < |m| && m[i + |PrintList(args)|] == 'E'
    ensures M.ArgList(m, i) == M.At(i + |PrintList(args)|)
    decreases args, 0
  {
    hide M.Type, M.Types, M.Name, M.Expression, M.Encoding, M.TemplateArgs, M.ArgList, M.BareFunctionType,
         M.Number, M.SourceName, M.CVQualifiers, M.Substitution, M.TemplateParam, M.UnqualifiedName,
         M.UnscopedName, Digits, Source, Has, M.TemplateArg, PrintArg, PrintType, PrintTypes, PrintUnqualified,
         PrintPart, PrintParts, PrintName, PrintArgs, PrintLiteral, PrintExpr, PrintEntity, PrintQuals, PrintSub,
         PrintParam, PrintOffset, Signed, GoodType, GoodTypes, GoodUnqualified, GoodParts, GoodName, GoodArg,
         GoodLiteral, GoodExpr, GoodEntity, GoodSub;
    match args
    case NoArgs => NoArg(m, i); ListEnds(m, i);
    case Args(a, more) =>
      var j := i + |PrintArg(a)|;
      HasTwo(m, i, PrintArg(a), PrintList(more));
      if more.Args? {
        ArgStarts(more.head);
        HasTwo(m, j, PrintArg(more.head), PrintList(more.tail));
        HasAt(m, j, PrintArg(more.head), 0);
      }
      ArgReads(m, i, a);
      ListReads(m, j, more);
      ListStep(m, i, j);
  }

  lemma ListEnds(m: string, i: nat)
    requires i <= |m| && M.TemplateArg(m, i).Fail?
    ensures M.ArgList(m, i) == M.At(i)
  {
    hide M.TemplateArg;
  }

  lemma ListStep(m: string, i: nat, j: nat)
    requires i <= |m| && M.TemplateArg(m, i) == M.At(j)
    ensures M.ArgList(m, i) == M.ArgList(m, j)
  {
    hide M.TemplateArg;
  }

  lemma {:induction false} ArgReads(m: string, i: nat, a: Arg)
    requires GoodArg(a) && Has(m, i, PrintArg(a)) && (a.TypeArg? ==> Follow(m, i + |PrintArg(a)|))
    ensures M.TemplateArg(m, i) == M.At(i + |PrintArg(a)|)
    decreases a, 1
  {
    hide M.Type, M.Types, M.Name, M.Expression, M.Encoding, M.TemplateArgs, M.ArgList, M.BareFunctionType,
         M.Number, M.SourceName, M.CVQualifiers, M.Substitution, M.TemplateParam, M.UnqualifiedName,
         M.UnscopedName, Digits, Source, Has, M.TemplateArg, M.ExprPrimary, PrintType, PrintTypes,
         PrintUnqualified, PrintPart, PrintParts, PrintName, PrintList, PrintArgs, PrintLiteral, PrintExpr,
         PrintEntity, PrintQuals, PrintSub, PrintParam, PrintOffset, Signed, GoodType, GoodTypes, GoodUnqualified,
         GoodParts, GoodName, GoodArgs, GoodLiteral, GoodExpr, GoodEntity, GoodSub;
    var end := i + |PrintArg(a)|;
    match a
    case TypeArg(t) =>
      TypeStarts(t);
      HasAt(m, i, PrintType(t), 0);
      TypeReads(m, i, t);
      TypeIsArg(m, i, end);
    case LiteralArg(l) =>
      LiteralStarts(l);
      HasAt(m, i, PrintLiteral(l), 0);
      HasAt(m, i, PrintLiteral(l), 1);
      LiteralReads(m, i, l);
      LiteralIsArg(m, i, end);
    case _ => BracketedReads(m, i, a);
  }

  lemma {:induction false} BracketedReads(m: string, i: nat, a: Arg)
    requires (a.ExprArg? || a.PackArg?) && GoodArg(a) && Has(m, i, PrintArg(a))
    ensures M.TemplateArg(m, i) == M.At(i + |PrintArg(a)|)
    decreases a, 0
  {
    hide M.Type, M.Types, M.Name, M.Expression, M.Encoding, M.TemplateArgs, M.ArgList, M.BareFunctionType,
         M.Number, M.SourceName, M.CVQualifiers, M.Substitution, M.TemplateParam, M.UnqualifiedName,
         M.UnscopedName, Digits, Source, Has, M.TemplateArg, M.ExprPrimary, PrintType, PrintTypes,
         PrintUnqualified, PrintPart, PrintParts, PrintName, PrintList, PrintArgs, PrintLiteral, PrintExpr,
         PrintEntity, PrintQuals, PrintSub, PrintParam, PrintOffset, Signed, GoodType, GoodTypes, GoodUnqualified,
         GoodParts, GoodName, GoodArgs, GoodLiteral, GoodExpr, GoodEntity, GoodSub;
    var end := i + |PrintArg(a)|;
    match a
    case ExprArg(e) =>
      HasThree(m, i, "X", PrintExpr(e), "E");
      HasAt(m, i, "X", 0);
      HasAt(m, end - 1, "E", 0);
      ExprReads(m, i + 1, e);
      ExprIsArg(m, i, end - 1);
    case PackArg(args) =>
      HasThree(m, i, "I", PrintList(args), "E");
      HasAt(m, i, "I", 0);
      HasAt(m, end - 1, "E", 0);
      ListReads(m, i + 1, args);
      PackIsArg(m, i, end - 1);
  }

  lemma {:induction false} LiteralReads(m: string, i: nat, l: Literal)
    requires GoodLiteral(l) && Has(m, i, PrintLiteral(l))
    ensures M.ExprPrimary(m, i) == M.At(i + |PrintLiteral(l)|)
    decreases l, 1
  {
    hide M.Type, M.Types, M.Name, M.Expression, M.Encoding, M.TemplateArgs, M.ArgList, M.BareFunctionType,
         M.Number, M.SourceName, M.CVQualifiers, M.Substitution, M.TemplateParam, M.UnqualifiedName,
         M.UnscopedName, Digits, Source, Has, M.ExprPrimary, Signed, PrintType, PrintTypes, PrintUnqualified,
         PrintPart, PrintParts, PrintName, PrintArg, PrintList, PrintArgs, PrintExpr, PrintEntity, PrintQuals,
         PrintSub, PrintParam, PrintOffset, GoodType, GoodTypes, GoodUnqualified, GoodParts, GoodName, GoodArg,
         GoodArgs, GoodExpr, GoodEntity, GoodSub;
    var end := i + |PrintLiteral(l)|;
    match l
    case Integer(t, negative, n) =>
      var j := i + 1 + |PrintType(t)|;
      HasFour(m, i, "L", PrintType(t), Signed(negative, n), "E");
      HasAt(m, i, "L", 0);
      SignedStarts(negative, n);
      HasAt(m, j, Signed(negative, n), 0);
      HasAt(m, end - 1, "E", 0);
      TypeReads(m, i + 1, t);
      SignedReads(m, j, negative, n);
      IntegerIsLiteral(m, i, j, end - 1);
    case Float(_, _) => FloatReads(m, i, l);
    case Address(e) =>
      HasThree(m, i, "L_Z", PrintEntity(e), "E");
      HasAt(m, end - 1, "E", 0);
      EntityReads(m, i + 3, e);
      AddressIsLiteral(m, i, end - 1);
  }

  lemma {:induction false} FloatReads(m: string, i: nat, l: Literal)
    requires l.Float? && GoodLiteral(l) && Has(m, i, PrintLiteral(l))
    ensures M.ExprPrimary(m, i) == M.At(i + |PrintLiteral(l)|)
    decreases l, 0
  {
    hide M.Type, M.Types, M.Name, M.Expression, M.Encoding, M.TemplateArgs, M.ArgList, M.BareFunctionType,
         M.Number, M.SourceName, M.CVQualifiers, M.Substitution, M.TemplateParam, M.UnqualifiedName,
         M.UnscopedName, Digits, Source, Has, M.ExprPrimary, PrintType, PrintTypes, PrintUnqualified, PrintPart,
         PrintParts, PrintName, PrintArg, PrintList, PrintArgs, PrintExpr, PrintEntity, PrintQuals, PrintSub,
         PrintParam, PrintOffset, Signed, GoodType, GoodTypes, GoodUnqualified, GoodParts, GoodName, GoodArg,
         GoodArgs, GoodExpr, GoodEntity, GoodSub;
    var t, hex := PrintType(l.t), l.hex;
    var j := i + 1 + |t|;
    assert "L" + t + hex + "E" == "L" + t + (hex + "E");
    HasThree(m, i, "L", t, hex + "E");
    HasAt(m, i, "L", 0);
    HasAt(m, j, hex + "E", 0);
    assert hex[0] in hex;
    TypeReads(m, i + 1, l.t);
    FloatIsLiteral(m, i, j, hex);
  }

  lemma SignedStarts(negative: bool, n: nat)
    ensures var s := Signed(negative, n); s != "" && (M.IsDigit(s[0]) || s[0] == 'n')
  {
    hide Digits;
    assert Digits(n)[0] in Digits(n);
  }

  // expressions

  /** What may follow an expression: its end, or that of an array size. */
  predicate FollowsExpr(m: string, i: nat, e: Expr) {
    Atom(e) || (i < |m| && m[i] in "E_" && (m[i] == '_' ==> !EndsInType(e)))
  }

  lemma {:induction false} ExprReads(m: string, i: nat, e: Expr)
    requires GoodExpr(e) && Has(m, i, PrintExpr(e)) && FollowsExpr(m, i + |PrintExpr(e)|, e)
    ensures M.Expression(m, i) == M.At(i + |PrintExpr(e)|)
    decreases e, 1
  {
    hide M.Type, M.Types, M.Name, M.Expression, M.Encoding, M.TemplateArgs, M.ArgList, M.BareFunctionType,
         M.Number, M.SourceName, M.CVQualifiers, M.Substitution, M.TemplateParam, M.UnqualifiedName,
         M.UnscopedName, Digits, Source, Has, M.ExprPrimary, PrintType, PrintTypes, PrintPart, PrintParts,
         PrintName, PrintArg, PrintList, PrintLiteral, PrintEntity, PrintQuals, PrintSub, PrintParam, PrintOffset,
         Signed, GoodType, GoodTypes, GoodParts, GoodName, GoodArg, GoodArgs, GoodLiteral, GoodEntity, GoodSub;
    var end := i + |PrintExpr(e)|;
    match e
    case ParamExpr(p) =>
      ParamReads(m, i, p);
      ParamIsExpr(m, i, end);
    case LiteralExpr(l) =>
      LiteralStarts(l);
      HasAt(m, i, PrintLiteral(l), 0);
      LiteralReads(m, i, l);
      LiteralIsExpr(m, i, end);
    case Sizeof(t) =>
      HasTwo(m, i, "st", PrintType(t));
      HasAt(m, i + 2, PrintType(t), 0);
      TypeReads(m, i + 2, t);
      SizeofIsExpr(m, i, end);
    case Scoped(t, id, args) =>
      var j, k := i + 2 + |PrintType(t)|, i + 2 + |PrintType(t)| + |Source(id)|;
      HasFour(m, i, "sr", PrintType(t), Source(id), PrintArgs(args));
      SourceReads(m, j, id);
      TypeReads(m, i + 2, t);
      UnqualifiedReads(m, j, Named(id));
      if args.Args? { ArgsRead(m, k, args); } else { NoTemplateArgs(m, k); }
      ScopedIsExpr(m, i, j, k);
    case Ternary(_, _, _, _) => TernaryReads(m, i, e);
    case Unary(_, _) => UnaryReads(m, i, e);
    case Binary(_, _, _) => BinaryReads(m, i, e);
  }

  lemma {:induction false} UnaryReads(m: string, i: nat, e: Expr)
    requires e.Unary? && GoodExpr(e) && Has(m, i, PrintExpr(e)) && FollowsExpr(m, i + |PrintExpr(e)|, e)
    ensures M.Expression(m, i) == M.At(i + |PrintExpr(e)|)
    decreases e, 0
  {
    hide M.Type, M.Types, M.Name, M.Expression, M.Encoding, M.TemplateArgs, M.ArgList, M.BareFunctionType,
         M.Number, M.SourceName, M.CVQualifiers, M.Substitution, M.TemplateParam, M.UnqualifiedName,
         M.UnscopedName, Digits, Source, Has, Code, PrintType, PrintTypes, PrintUnqualified, PrintPart,
         PrintParts, PrintName, PrintArg, PrintList, PrintArgs, PrintLiteral, PrintEntity, PrintQuals, PrintSub,
         PrintParam, PrintOffset, Signed, GoodType, GoodTypes, GoodUnqualified, GoodParts, GoodName, GoodArg,
         GoodArgs, GoodLiteral, GoodEntity, GoodSub;
    var f := PrintExpr(e.e);
    CodeLetters(e.code);
    NoExpr(m, i + 2 + |f|);
    HasTwo(m, i, e.code, f);
    HasAt(m, i, e.code, 0);
    OperatorReads(m, i, e.code);
    ExprReads(m, i + 2, e.e);
    UnaryIsExpr(m, i, i + 2 + |f|);
  }

  lemma {:induction false} BinaryReads(m: string, i: nat, e: Expr)
    requires e.Binary? && GoodExpr(e) && Has(m, i, PrintExpr(e)) && FollowsExpr(m, i + |PrintExpr(e)|, e)
    ensures M.Expression(m, i) == M.At(i + |PrintExpr(e)|)
    decreases e, 0
  {
    hide M.Type, M.Types, M.Name, M.Expression, M.Encoding, M.TemplateArgs, M.ArgList, M.BareFunctionType,
         M.Number, M.SourceName, M.CVQualifiers, M.Substitution, M.TemplateParam, M.UnqualifiedName,
         M.UnscopedName, Digits, Source, Has, Code, PrintType, PrintTypes, PrintUnqualified, PrintPart,
         PrintParts, PrintName, PrintArg, PrintList, PrintArgs, PrintLiteral, PrintEntity, PrintQuals, PrintSub,
         PrintParam, PrintOffset, Signed, GoodType, GoodTypes, GoodUnqualified, GoodParts, GoodName, GoodArg,
         GoodArgs, GoodLiteral, GoodEntity, GoodSub;
    var a, f := PrintExpr(e.a), PrintExpr(e.e);
    var j := i + 2 + |a|;
    CodeLetters(e.code);
    NoExpr(m, j + |f|);
    HasThree(m, i, e.code, a, f);
    HasAt(m, i, e.code, 0);
    OperatorReads(m, i, e.code);
    ExprReads(m, i + 2, e.a);
    ExprReads(m, j, e.e);
    BinaryIsExpr(m, i, j, j + |f|);
  }

  lemma {:induction false} TernaryReads(m: string, i: nat, e: Expr)
    requires e.Ternary? && GoodExpr(e) && Has(m, i, PrintExpr(e)) && FollowsExpr(m, i + |PrintExpr(e)|, e)
    ensures M.Expression(m, i) == M.At(i + |PrintExpr(e)|)
    decreases e, 0
  {
    hide M.Type, M.Types, M.Name, M.Expression, M.Encoding, M.TemplateArgs, M.ArgList, M.BareFunctionType,
         M.Number, M.SourceName, M.CVQualifiers, M.Substitution, M.TemplateParam, M.UnqualifiedName,
         M.UnscopedName, Digits, Source, Has, Code, PrintType, PrintTypes, PrintUnqualified, PrintPart,
         PrintParts, PrintName, PrintArg, PrintList, PrintArgs, PrintLiteral, PrintEntity, PrintQuals, PrintSub,
         PrintParam, PrintOffset, Signed, GoodType, GoodTypes, GoodUnqualified, GoodParts, GoodName, GoodArg,
         GoodArgs, GoodLiteral, GoodEntity, GoodSub;
    var a, b, f := PrintExpr(e.a), PrintExpr(e.b), PrintExpr(e.e);
    var j, k := i + 2 + |a|, i + 2 + |a| + |b|;
    CodeLetters(e.code);
    HasFour(m, i, e.code, a, b, f);
    HasAt(m, i, e.code, 0);
    OperatorReads(m, i, e.code);
    ExprReads(m, i + 2, e.a);
    ExprReads(m, j, e.b);
    ExprReads(m, k, e.e);
    TernaryIsExpr(m, i, j, k, k + |f|);
  }

  // entities

  lemma {:induction false} EntityReads(m: string, i: nat, e: Entity)
    requires GoodEntity(e) && Has(m, i, PrintEntity(e)) && Over(m, i + |PrintEntity(e)|)
    ensures M.Encoding(m, i) == M.At(i + |PrintEntity(e)|)
    decreases e, 1
  {
    hide M.Type, M.Types, M.Name, M.Expression, M.Encoding, M.TemplateArgs, M.ArgList, M.BareFunctionType,
         M.Number, M.SourceName, M.CVQualifiers, M.Substitution, M.TemplateParam, M.UnqualifiedName,
         M.UnscopedName, Digits, Source, Has, PrintType, PrintTypes, PrintUnqualified, PrintPart, PrintParts,
         PrintName, PrintArg, PrintList, PrintArgs, PrintLiteral, PrintExpr, PrintQuals, PrintSub, PrintParam,
         PrintOffset, Signed, GoodType, GoodTypes, GoodUnqualified, GoodParts, GoodName, GoodArg, GoodArgs,
         GoodLiteral, GoodExpr, GoodSub;
    var end := i + |PrintEntity(e)|;
    match e
    case Object(n, signature) =>
      var j := i + |PrintName(n)|;
      HasTwo(m, i, PrintName(n), PrintTypes(signature));
      TypesStart(signature);
      if signature.Types? { HasAt(m, j, PrintTypes(signature), 0); }
      NameReads(m, i, n);
      TypesRead(m, j, signature);
      ObjectIsEntity(m, i, j, end);
    case StaticIn(_, _, _) => StaticReads(m, i, e);
    case StringIn(_) => StringReads(m, i, e);
    case Construction(_, _, _) => ConstructionReads(m, i, e);
    case Thunk(_, _) => ThunkReads(m, i, e);
    case CovariantThunk(_, _, _) => ThunkReads(m, i, e);
    case _ => SpecialReads(m, i, e);
  }

  lemma {:induction false} SpecialReads(m: string, i: nat, e: Entity)
    requires e.Table? || e.TypeInfo? || e.GuardOf? || e.Temporary? || e.Alias?
    requires GoodEntity(e) && Has(m, i, PrintEntity(e)) && Over(m, i + |PrintEntity(e)|)
    ensures M.Encoding(m, i) == M.At(i + |PrintEntity(e)|)
    decreases e, 0
  {
    hide M.Type, M.Types, M.Name, M.Expression, M.Encoding, M.TemplateArgs, M.ArgList, M.BareFunctionType,
         M.Number, M.SourceName, M.CVQualifiers, M.Substitution, M.TemplateParam, M.UnqualifiedName,
         M.UnscopedName, Digits, Source, Has, PrintType, PrintTypes, PrintUnqualified, PrintPart, PrintParts,
         PrintName, PrintArg, PrintList, PrintArgs, PrintLiteral, PrintExpr, PrintQuals, PrintSub, PrintParam,
         PrintOffset, Signed, GoodType, GoodTypes, GoodUnqualified, GoodParts, GoodName, GoodArg, GoodArgs,
         GoodLiteral, GoodExpr, GoodSub;
    var end := i + |PrintEntity(e)|;
    match e
    case Table(c, t) =>
      HasThree(m, i, "T", [c], PrintType(t));
      HasAt(m, i, "T", 0);
      HasAt(m, i + 1, [c], 0);
      TypeReads(m, i + 2, t);
      TableIsEntity(m, i, end);
    case GuardOf(n) =>
      HasTwo(m, i, "GV", PrintName(n));
      NameReads(m, i + 2, n);
      GuardIsEntity(m, i, end);
    case TypeInfo(c, t) =>
      HasThree(m, i, "T", [c], PrintType(t));
      HasAt(m, i, "T", 0);
      HasAt(m, i + 1, [c], 0);
      TypeReads(m, i + 2, t);
      TypeInfoIsEntity(m, i, end);
    case Temporary(n) =>
      HasTwo(m, i, "GR", PrintName(n));
      NameReads(m, i + 2, n);
      TemporaryIsEntity(m, i, end);
    case Alias(f) =>
      HasTwo(m, i, "GA", PrintEntity(f));
      EntityReads(m, i + 2, f);
      AliasIsEntity(m, i, end);
  }

  lemma {:induction false} ThunkReads(m: string, i: nat, e: Entity)
    requires e.Thunk? || e.CovariantThunk?
    requires GoodEntity(e) && Has(m, i, PrintEntity(e)) && Over(m, i + |PrintEntity(e)|)
    ensures M.Encoding(m, i) == M.At(i + |PrintEntity(e)|)
    decreases e, 0
  {
    hide M.Type, M.Types, M.Name, M.Expression, M.Encoding, M.TemplateArgs, M.ArgList, M.BareFunctionType,
         M.Number, M.SourceName, M.CVQualifiers, M.Substitution, M.TemplateParam, M.UnqualifiedName,
         M.UnscopedName, Digits, Source, Has, M.CallOffset, PrintType, PrintTypes, PrintUnqualified, PrintPart,
         PrintParts, PrintName, PrintArg, PrintList, PrintArgs, PrintLiteral, PrintExpr, PrintQuals, PrintSub,
         PrintParam, PrintOffset, Signed, GoodType, GoodTypes, GoodUnqualified, GoodParts, GoodName, GoodArg,
         GoodArgs, GoodLiteral, GoodExpr, GoodSub;
    var end := i + |PrintEntity(e)|;
    match e
    case Thunk(o, f) =>
      HasThree(m, i, "T", PrintOffset(o), PrintEntity(f));
      HasAt(m, i, "T", 0);
      OffsetReads(m, i + 1, o);
      EntityReads(m, i + 1 + |PrintOffset(o)|, f);
      ThunkIsEntity(m, i, i + 1 + |PrintOffset(o)|, end);
    case CovariantThunk(o, p, f) =>
      var j, k := i + 2 + |PrintOffset(o)|, i + 2 + |PrintOffset(o)| + |PrintOffset(p)|;
      HasFour(m, i, "Tc", PrintOffset(o), PrintOffset(p), PrintEntity(f));
      OffsetReads(m, i + 2, o);
      OffsetReads(m, j, p);
      EntityReads(m, k, f);
      CovariantIsEntity(m, i, j, k, end);
  }

  lemma {:induction false} ConstructionReads(m: string, i: nat, e: Entity)
    requires e.Construction? && GoodEntity(e) && Has(m, i, PrintEntity(e)) && Over(m, i + |PrintEntity(e)|)
    ensures M.Encoding(m, i) == M.At(i + |PrintEntity(e)|)
    decreases e, 0
  {
    hide M.Type, M.Types, M.Name, M.Expression, M.Encoding, M.TemplateArgs, M.ArgList, M.BareFunctionType,
         M.Number, M.SourceName, M.CVQualifiers, M.Substitution, M.TemplateParam, M.UnqualifiedName,
         M.UnscopedName, Digits, Source, Has, PrintType, PrintTypes, PrintUnqualified, PrintPart, PrintParts,
         PrintName, PrintArg, PrintList, PrintArgs, PrintLiteral, PrintExpr, PrintQuals, PrintSub, PrintParam,
         PrintOffset, Signed, GoodType, GoodTypes, GoodUnqualified, GoodParts, GoodName, GoodArg, GoodArgs,
         GoodLiteral, GoodExpr, GoodSub;
    var t, d, u := PrintType(e.t), Digits(e.offset), PrintType(e.u);
    var j, k := i + 2 + |t|, i + 2 + |t| + |d|;
    assert "TC" + t + d + "_" + u == "TC" + t + d + ("_" + u);
    HasFour(m, i, "TC", t, d, "_" + u);
    HasTwo(m, k, "_", u);
    HasAt(m, k, "_", 0);
    HasAt(m, j, d, 0);
    UnsignedReads(m, j, e.offset);
    TypeReads(m, i + 2, e.t);
    TypeReads(m, k + 1, e.u);
    ConstructionIsEntity(m, i, j, k, k + 1 + |u|);
  }

  /** A string literal of a function. */
  lemma {:induction false} StringReads(m: string, i: nat, e: Entity)
    requires e.StringIn? && GoodEntity(e) && Has(m, i, PrintEntity(e)) && Over(m, i + |PrintEntity(e)|)
    ensures M.Encoding(m, i) == M.At(i + |PrintEntity(e)|)
    decreases e, 0
  {
    hide M.Type, M.Types, M.Name, M.Expression, M.Encoding, M.TemplateArgs, M.ArgList, M.BareFunctionType,
         M.Number, M.SourceName, M.CVQualifiers, M.Substitution, M.TemplateParam, M.UnqualifiedName,
         M.UnscopedName, Digits, Source, Has, PrintType, PrintTypes, PrintUnqualified, PrintPart, PrintParts,
         PrintName, PrintArg, PrintList, PrintArgs, PrintLiteral, PrintExpr, PrintQuals, PrintSub, PrintParam,
         PrintOffset, Signed, GoodType, GoodTypes, GoodUnqualified, GoodParts, GoodName, GoodArg, GoodArgs,
         GoodLiteral, GoodExpr, GoodSub;
    var f := PrintEntity(e.e);
    var x := i + 1 + |f|;
    HasThree(m, i, "Z", f, "Es");
    HasAt(m, i, "Z", 0);
    HasAt(m, x, "Es", 0);
    EntityReads(m, i + 1, e.e);
    StringIsName(m, i, x);
    NothingOver(m, x + 2);
    ObjectIsEntity(m, i, x + 2, x + 2);
  }

  /** A numbered local variable of a function. */
  lemma {:induction false} StaticReads(m: string, i: nat, e: Entity)
    requires e.StaticIn? && GoodEntity(e) && Has(m, i, PrintEntity(e)) && Over(m, i + |PrintEntity(e)|)
    ensures M.Encoding(m, i) == M.At(i + |PrintEntity(e)|)
    decreases e, 0
  {
    hide M.Type, M.Types, M.Name, M.Expression, M.Encoding, M.TemplateArgs, M.ArgList, M.BareFunctionType,
         M.Number, M.SourceName, M.CVQualifiers, M.Substitution, M.TemplateParam, M.UnqualifiedName,
         M.UnscopedName, Digits, Source, Has, M.Discriminator, PrintType, PrintTypes, PrintUnqualified, PrintPart,
         PrintParts, PrintName, PrintArg, PrintList, PrintArgs, PrintLiteral, PrintExpr, PrintQuals, PrintSub,
         PrintParam, PrintOffset, Signed, GoodType, GoodTypes, GoodUnqualified, GoodParts, GoodName, GoodArg,
         GoodArgs, GoodLiteral, GoodExpr, GoodSub;
    var f, n, d := PrintEntity(e.e), PrintName(e.n), Digits(e.number);
    var x, y := i + 1 + |f|, i + 2 + |f| + |n|;
    assert "Z" + f + "E" + n + "_" + d == "Z" + f + "E" + (n + "_" + d);
    HasFour(m, i, "Z", f, "E", n + "_" + d);
    HasThree(m, x + 1, n, "_", d);
    HasAt(m, i, "Z", 0);
    HasAt(m, x, "E", 0);
    HasAt(m, y, "_", 0);
    EntityReads(m, i + 1, e.e);
    NameReads(m, x + 1, e.n);
    DiscriminatorReads(m, y, e.number);
    LocalIsName(m, i, x, y);
    NothingOver(m, y + 1 + |d|);
    ObjectIsEntity(m, i, y + 1 + |d|, y + 1 + |d|);
  }

  lemma DiscriminatorReads(m: string, i: nat, n: nat)
    requires i < |m| && m[i] == '_' && Has(m, i + 1, Digits(n)) && Over(m, i + 1 + |Digits(n)|)
    ensures M.Discriminator(m, i) == M.At(i + 1 + |Digits(n)|)
  {
    hide M.Number, Digits, Has;
    UnsignedReads(m, i + 1, n);
  }

  // ------------------------------------------------------- whole names

  /** Pieces that the compiler appends to the name of a cloned function. */
  datatype Clone = Clone(word: string, number: string)

  predicate GoodClone(c: Clone) {
    c.word != "" && c.number != "" && (forall x | x in c.word :: M.IsAlpha(x)) && forall x | x in c.number :: M.IsDigit(x)
  }

  function PrintClones(cs: seq<Clone>): string {
    if cs == [] then "" else "." + cs[0].word + "." + cs[0].number + PrintClones(cs[1..])
  }

  lemma {:induction false} ClonesRead(m: string, i: nat, cs: seq<Clone>)
    requires (forall c | c in cs :: GoodClone(c)) && i + |PrintClones(cs)| == |m| && Has(m, i, PrintClones(cs))
    ensures M.CloneSuffix(m, i)
    decreases |cs|
  {
    hide M.Piece, M.CloneSuffix, Has;
    if cs == [] {
      CloneEnds(m, i);
    } else {
      var w, d, more := cs[0].word, cs[0].number, PrintClones(cs[1..]);
      var j, k := i + 1 + |w|, i + 2 + |w| + |d|;
      assert PrintClones(cs) == ("." + w) + ("." + d) + more;
      HasThree(m, i, "." + w, "." + d, more);
      HasAt(m, j, "." + d, 0);
      if cs[1..] != [] { HasAt(m, k, more, 0); }
      assert GoodClone(cs[0]);
      PieceReads(m, i, w, M.IsAlpha);
      PieceReads(m, j, d, M.IsDigit);
      ClonesRead(m, k, cs[1..]);
      CloneStep(m, i, j, k);
    }
  }

  lemma PieceReads(m: string, i: nat, w: string, kind: char -> bool)
    requires w != "" && Has(m, i, "." + w) && (forall x | x in w :: kind(x))
    requires i + 1 + |w| < |m| ==> !kind(m[i + 1 + |w|])
    ensures M.Piece(m, i, kind) == M.At(i + 1 + |w|)
  {
    hide M.Span, Has;
    HasTwo(m, i, ".", w);
    HasAt(m, i, ".", 0);
    SpanIs(m, i + 1, w, kind);
  }

  lemma CloneEnds(m: string, i: nat)
    requires i == |m|
    ensures M.CloneSuffix(m, i)
  {
  }

  lemma CloneStep(m: string, i: nat, j: nat, k: nat)
    requires i <= |m| && M.Piece(m, i, M.IsAlpha) == M.At(j) && M.Piece(m, j, M.IsDigit) == M.At(k) && M.CloneSuffix(m, k)
    ensures M.CloneSuffix(m, i)
  {
    hide M.Piece;
  }

  /** Whatever a name is made of, printed it is read to its end, nothing gets stuck on it,
      and it is accepted: alone, with the suffixes of cloned functions, or with a version. */
  lemma PrintedIsAccepted(e: Entity, clones: seq<Clone>, version: string)
    requires GoodEntity(e) && forall c | c in clones :: GoodClone(c)
    ensures M.Accepted("_Z" + PrintEntity(e) + PrintClones(clones))
    ensures M.Accepted("_Z" + PrintEntity(e) + "@" + version)
    ensures M.MangledName("_Z" + PrintEntity(e), 0) == M.At(2 + |PrintEntity(e)|)
  {
    hide M.Encoding, M.CloneSuffix, PrintEntity, GoodEntity;
    var n := PrintEntity(e);
    var m := "_Z" + n + PrintClones(clones);
    if clones != [] { assert PrintClones(clones)[0] == '.'; }
    MangledReads(m, e);
    assert m[2 + |n|..] == PrintClones(clones);
    ClonesRead(m, 2 + |n|, clones);
    MangledReads("_Z" + n + "@" + version, e);
    MangledReads("_Z" + n, e);
  }

  lemma MangledReads(m: string, e: Entity)
    requires GoodEntity(e) && "_Z" + PrintEntity(e) <= m && Over(m, 2 + |PrintEntity(e)|)
    ensures M.MangledName(m, 0) == M.At(2 + |PrintEntity(e)|)
  {
    hide M.Encoding, PrintEntity, GoodEntity;
    assert Has(m, 0, "_Z" + PrintEntity(e));
    HasTwo(m, 0, "_Z", PrintEntity(e));
    HasAt(m, 0, "_Z", 0);
    HasAt(m, 0, "_Z", 1);
    EntityReads(m, 2, e);
  }
}
