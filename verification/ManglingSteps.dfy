/** One step of the recognizers for each production: what the alternative reads when its parts
    are read and the alternatives before it fail. */
module ManglingSteps {
  import M = Mangling
  import opened ManglingTerms

  // ------------------------------------------------------- texts inside a name

  predicate Has(m: string, i: nat, s: string) { i + |s| <= |m| && m[i..i + |s|] == s }

  lemma HasTwo(m: string, i: nat, a: string, b: string)
    requires Has(m, i, a + b)
    ensures Has(m, i, a) && Has(m, i + |a|, b)
  {
    assert m[i..i + |a|] == m[i..i + |a + b|][..|a|] && m[i + |a|..i + |a| + |b|] == m[i..i + |a + b|][|a|..];
  }

  lemma HasThree(m: string, i: nat, a: string, b: string, c: string)
    requires Has(m, i, a + b + c)
    ensures Has(m, i, a) && Has(m, i + |a|, b) && Has(m, i + |a| + |b|, c)
  {
    HasTwo(m, i, a + b, c);
    HasTwo(m, i, a, b);
  }

  lemma HasFour(m: string, i: nat, a: string, b: string, c: string, d: string)
    requires Has(m, i, a + b + c + d)
    ensures Has(m, i, a) && Has(m, i + |a|, b) && Has(m, i + |a| + |b|, c) && Has(m, i + |a| + |b| + |c|, d)
  {
    HasTwo(m, i, a + b + c, d);
    HasThree(m, i, a, b, c);
  }

  lemma HasAt(m: string, i: nat, s: string, k: nat)
    requires Has(m, i, s) && k < |s|
    ensures i + k < |m| && m[i + k] == s[k]
  {
    assert m[i..i + |s|][k] == m[i + k];
  }

  // numbers and source names

  lemma {:induction false} DecimalOfDigits(n: nat)
    ensures M.Decimal(Digits(n)) == n
  {
    var s := Digits(n);
    if n < 10 {
      assert s[..0] == "" && M.Decimal("") == 0;
    } else {
      DecimalOfDigits(n / 10);
      assert s[..|s| - 1] == Digits(n / 10);
    }
  }

  lemma SpanIs(m: string, i: nat, s: string, p: char -> bool)
    requires Has(m, i, s) && (forall c | c in s :: p(c)) && (i + |s| < |m| ==> !p(m[i + |s|]))
    ensures M.Span(m, i, p) == i + |s|
  {
    hide M.Span;
    forall k | i <= k < i + |s| ensures p(m[k]) {
      HasAt(m, i, s, k - i);
      assert s[k - i] in s;
    }
  }

  lemma SignedReads(m: string, i: nat, negative: bool, n: nat)
    requires Has(m, i, Signed(negative, n)) && (i + |Signed(negative, n)| < |m| ==> !M.IsDigit(m[i + |Signed(negative, n)|]))
    ensures M.Number(m, i) == M.At(i + |Signed(negative, n)|)
    ensures !negative ==> M.NumberValue(m, i) == n
  {
    hide M.Span, M.Decimal, Digits;
    var s := Digits(n);
    assert s[0] in s;
    HasAt(m, i, Signed(negative, n), 0);
    if negative { HasTwo(m, i, "n", s); }
    SpanIs(m, if negative then i + 1 else i, s, M.IsDigit);
    DecimalOfDigits(n);
  }

  lemma NoNumber(m: string, i: nat)
    requires i <= |m| && (i < |m| ==> !M.IsDigit(m[i]) && m[i] != 'n')
    ensures M.Number(m, i).Fail? && M.SourceName(m, i).Fail?
  {
  }

  lemma SourceReads(m: string, i: nat, id: Id)
    requires Has(m, i, Source(id))
    ensures M.SourceName(m, i) == M.At(i + |Source(id)|)
    ensures i < |m| && M.IsDigit(m[i])
  {
    hide M.Number, M.NumberValue, Digits;
    var s := Digits(|id|);
    assert s[0] in s;
    HasTwo(m, i, s, id);
    HasAt(m, i, s, 0);
    HasAt(m, i + |s|, id, 0);
    assert Signed(false, |id|) == s;
    SignedReads(m, i, false, |id|);
  }

  // ------------------------------------------------------- what does not start where

  lemma FirstCodesKnown(code: string)
    requires code in FIRST_CODES
    ensures exists k :: 0 <= k < |M.OPERATORS| && M.OPERATORS[k].0 == code
  {
    var t := M.OPERATORS;
    assert t[0].0 == "nw" && t[1].0 == "na" && t[2].0 == "dl" && t[3].0 == "da" && t[4].0 == "ps" &&
      t[5].0 == "ng" && t[6].0 == "ad" && t[7].0 == "de" && t[8].0 == "co" && t[9].0 == "pl" && t[10].0
      == "mi" && t[11].0 == "ml" && t[12].0 == "dv" && t[13].0 == "rm" && t[14].0 == "an" && t[15].0 ==
      "or" && t[16].0 == "eo";
  }

  lemma MoreCodesKnown(code: string)
    requires code in MORE_CODES
    ensures exists k :: 0 <= k < |M.OPERATORS| && M.OPERATORS[k].0 == code
  {
    var t := M.OPERATORS;
    assert t[17].0 == "aS" && t[18].0 == "pL" && t[19].0 == "mI" && t[20].0 == "mL" && t[21].0 == "dV"
      && t[22].0 == "rM" && t[23].0 == "aN" && t[24].0 == "oR" && t[25].0 == "eO" && t[26].0 == "ls" &&
      t[27].0 == "rs" && t[28].0 == "lS" && t[29].0 == "rS" && t[30].0 == "eq" && t[31].0 == "ne" &&
      t[32].0 == "lt";
  }

  lemma LastCodesKnown(code: string)
    requires code in LAST_CODES
    ensures exists k :: 0 <= k < |M.OPERATORS| && M.OPERATORS[k].0 == code
  {
    var t := M.OPERATORS;
    assert t[33].0 == "gt" && t[34].0 == "le" && t[35].0 == "ge" && t[36].0 == "nt" && t[37].0 == "aa"
      && t[38].0 == "oo" && t[39].0 == "pp" && t[40].0 == "mm" && t[41].0 == "cm" && t[42].0 == "pm" &&
      t[43].0 == "pt" && t[44].0 == "cl" && t[45].0 == "ix" && t[46].0 == "qu" && t[47].0 == "st" &&
      t[48].0 == "sz";
  }

  lemma CodeKnown(code: string)
    requires Code(code)
    ensures exists k :: 0 <= k < |M.OPERATORS| && M.OPERATORS[k].0 == code
  {
    if
    case code in FIRST_CODES => FirstCodesKnown(code);
    case code in MORE_CODES => MoreCodesKnown(code);
    case code in LAST_CODES => LastCodesKnown(code);
  }

  lemma CodeLetters(code: string)
    requires Code(code)
    ensures |code| == 2 && M.IsLower(code[0]) && M.IsAlpha(code[1]) && code[0] != 'v' && code != "cv"
  {
  }

  lemma NoCode(m: string, i: nat)
    requires i + 1 < |m| && m[i] == 's' && (m[i + 1] == 'r' || m[i + 1] == 'E')
    ensures !M.IsOperator(m, i)
  {
  }

  lemma BuiltinCodes()
    ensures M.Keys(M.BUILTIN_TYPES) == "vwbcahstijlmxynofdegz"
    ensures M.Keys(M.SUBSTITUTIONS) == "tabsiod"
  {
  }

  lemma NoOperator(m: string, i: nat)
    requires i <= |m| && (i < |m| ==> !M.IsLower(m[i]))
    ensures M.OperatorName(m, i).Fail?
  {
    hide M.Type, M.SourceName;
  }

  lemma NoUnqualified(m: string, i: nat)
    requires i <= |m| && (i < |m| ==> !M.IsLower(m[i]) && !M.IsDigit(m[i]) && m[i] !in "CD")
    requires i < |m| && m[i] == 'L' ==> i + 1 < |m| && !M.IsDigit(m[i + 1]) && m[i + 1] != 'n'
    ensures M.UnqualifiedName(m, i).Fail?
  {
    hide M.Type, M.SourceName, M.OperatorName;
    NoOperator(m, i);
    NoNumber(m, i);
    if i < |m| && m[i] == 'L' { NoNumber(m, i + 1); }
  }

  /** Nothing that a name starts with. */
  predicate Nameless(m: string, i: nat) {
    && i <= |m|
    && (i < |m| ==> !M.IsLower(m[i]) && !M.IsDigit(m[i]) && m[i] !in "CDNZS")
    && (i < |m| && m[i] == 'L' ==> i + 1 < |m| && !M.IsDigit(m[i + 1]) && m[i + 1] != 'n')
  }

  lemma NoName(m: string, i: nat)
    requires Nameless(m, i)
    ensures M.Name(m, i).Fail? && M.UnscopedName(m, i).Fail? && M.Substitution(m, i).Fail?
  {
    hide M.UnqualifiedName, M.Encoding, M.Prefix, M.TemplateArgs;
    NoUnqualified(m, i);
    assert M.UnscopedName(m, i).Fail? && M.Substitution(m, i).Fail?;
    assert M.LocalEntity(m, i).Fail? && M.LocalString(m, i).Fail?;
    assert M.NestedName(m, i).Fail? && M.LocalName(m, i).Fail? && M.UnscopedTemplateName(m, i).Fail?;
  }

  lemma NotModified(m: string, i: nat)
    requires i <= |m| && (i < |m| ==> m[i] !in "rVKOPRCGDU")
    ensures M.ModifiedType(m, i).Fail?
  {
    hide M.Type, M.Expression, M.SourceName;
  }

  lemma NotBuiltin(m: string, i: nat)
    requires i <= |m| && (i < |m| ==> m[i] !in "vwbcahstijlmxynofdegzu")
    ensures M.BuiltinType(m, i).Fail?
  {
    hide M.SourceName, M.Keys;
    BuiltinCodes();
  }

  lemma NoTypeLetter(m: string, i: nat)
    requires i <= |m| && (i < |m| ==> m[i] !in "FAMT")
    ensures M.FunctionType(m, i).Fail? && M.ArrayType(m, i).Fail? && M.PointerToMemberType(m, i).Fail?
    ensures M.TemplateParam(m, i).Fail?
  {
    hide M.Type, M.BareFunctionType, M.Expression;
    assert M.SizedArray(m, i).Fail? && M.VariableArray(m, i).Fail?;
  }

  lemma NoWholeType(m: string, i: nat)
    requires Nameless(m, i) && (i < |m| ==> m[i] !in "FAMT")
    ensures M.WholeType(m, i).Fail? && M.Substitution(m, i).Fail? && M.TemplateParam(m, i).Fail?
  {
    hide M.WholeType, M.Name, M.Substitution, M.BuiltinType, M.FunctionType, M.ArrayType, M.PointerToMemberType,
         M.TemplateParam, M.UnscopedName;
    NoName(m, i);
    NotBuiltin(m, i);
    NoTypeLetter(m, i);
    NoneOfWholeType(m, i);
  }

  lemma NoneOfWholeType(m: string, i: nat)
    requires i <= |m| && M.BuiltinType(m, i).Fail? && M.FunctionType(m, i).Fail? && M.Name(m, i).Fail?
    requires M.ArrayType(m, i).Fail? && M.PointerToMemberType(m, i).Fail?
    ensures M.WholeType(m, i) == M.Substitution(m, i)
  {
    hide M.Name, M.Substitution, M.BuiltinType, M.FunctionType, M.ArrayType, M.PointerToMemberType;
  }

  /** Not a type: neither a name nor one of the letters that types start with. */
  lemma NoType(m: string, i: nat)
    requires Nameless(m, i) && (i < |m| ==> m[i] !in "rVKOPRCGDUFAMT")
    ensures M.Type(m, i).Fail?
  {
    hide M.ModifiedType, M.WholeType, M.TemplateParam, M.Substitution, M.TemplateArgs;
    NotModified(m, i);
    NoWholeType(m, i);
  }

  lemma NoComponent(m: string, i: nat)
    requires i < |m| && m[i] in "EI"
    ensures M.Component(m, i).Fail?
  {
    hide M.UnscopedName, M.Substitution;
    NoName(m, i);
  }

  lemma NoTemplateArgs(m: string, i: nat)
    requires i <= |m| && (i < |m| ==> m[i] != 'I')
    ensures M.TemplateArgs(m, i).Fail?
  {
  }

  lemma NoArg(m: string, i: nat)
    requires i < |m| && m[i] == 'E'
    ensures M.TemplateArg(m, i).Fail?
  {
    hide M.Type, M.Expression, M.ArgList, M.MangledName, M.Encoding;
    NoType(m, i);
    assert M.IntegerLiteral(m, i).Fail? && M.FloatLiteral(m, i).Fail? && M.NameLiteral(m, i).Fail?;
    assert M.ExprPrimary(m, i).Fail?;
  }

  lemma NoExpr(m: string, i: nat)
    requires i < |m| && NoOperand(m[i])
    ensures M.Expression(m, i).Fail?
  {
    hide M.OperatorName, M.Type, M.UnqualifiedName, M.TemplateArgs, M.MangledName, M.Encoding;
    NoOperator(m, i);
    assert M.IntegerLiteral(m, i).Fail? && M.FloatLiteral(m, i).Fail? && M.NameLiteral(m, i).Fail?;
    assert M.TemplateParam(m, i).Fail? && M.ExprPrimary(m, i).Fail?;
    assert M.OperatorExpression(m, i).Fail? && M.TypeExpression(m, i).Fail?;
  }

  /** What may follow a whole name and its types. */
  predicate Over(m: string, i: nat) { i <= |m| && (i < |m| ==> m[i] in "E.@") }

  /** What may follow a type or a name. */
  predicate Follow(m: string, i: nat) { i <= |m| && (i < |m| ==> m[i] !in "I_") }

  lemma NothingOver(m: string, i: nat)
    requires Over(m, i)
    ensures M.Type(m, i).Fail? && M.Types(m, i) == M.At(i) && M.BareFunctionType(m, i).Fail?
  {
    hide M.Type;
    NoType(m, i);
  }

  // ------------------------------------------------------- the parts of names

  lemma QualsRead(m: string, i: nat, q: Quals)
    requires Has(m, i, PrintQuals(q))
    requires i + |PrintQuals(q)| < |m| ==> m[i + |PrintQuals(q)|] !in "rVK"
    ensures M.CVQualifiers(m, i) == if Some(q) then M.At(i + |PrintQuals(q)|) else M.Fail
  {
    hide Has, M.Token;
    var r, v, k := if q.restricted then "r" else "", if q.isVolatile then "V" else "", if q.isConst then "K" else "";
    var b, c, end := i + |r|, i + |r| + |v|, i + |r| + |v| + |k|;
    HasThree(m, i, r, v, k);
    HasBounds(m, c, k);
    if q.isConst { HasAt(m, c, k, 0); }
    if q.isVolatile { HasAt(m, b, v, 0); }
    if q.restricted { HasAt(m, i, r, 0); }
    assert c < |m| ==> m[c] !in "rV";
    assert b < |m| ==> m[b] != 'r';
    LetterRead(m, i, q.restricted, 'r');
    LetterRead(m, b, q.isVolatile, 'V');
    LetterRead(m, c, q.isConst, 'K');
  }

  lemma LetterRead(m: string, i: nat, present: bool, c: char)
    requires i <= |m| && if present then i < |m| && m[i] == c else i < |m| ==> m[i] != c
    ensures M.Token(m, i, c).OrAt(i) == if present then i + 1 else i
  {
  }

  lemma HasBounds(m: string, i: nat, s: string)
    requires Has(m, i, s)
    ensures i + |s| <= |m|
  {
  }

  lemma SubReads(m: string, i: nat, s: Subst)
    requires GoodSub(s) && Has(m, i, PrintSub(s))
    ensures M.Substitution(m, i) == M.At(i + |PrintSub(s)|)
    ensures i + 1 < |m| && m[i] == 'S' && m[i + 1] != 't' && M.UnscopedName(m, i).Fail?
  {
    hide M.Span, M.UnqualifiedName, M.Keys;
    BuiltinCodes();
    HasAt(m, i, PrintSub(s), 0);
    HasAt(m, i, PrintSub(s), 1);
    if s.SeqSub? {
      HasThree(m, i, "S", s.id, "_");
      assert s.id[0] in s.id;
      SpanIs(m, i + 1, s.id, M.IsSeq);
    }
    NoUnqualified(m, i);
  }

  lemma ParamReads(m: string, i: nat, p: Param)
    requires Has(m, i, PrintParam(p))
    ensures M.TemplateParam(m, i) == M.At(i + |PrintParam(p)|) && i < |m| && m[i] == 'T'
  {
    hide M.Number, Digits;
    HasAt(m, i, PrintParam(p), 0);
    if p.NthParam? {
      HasThree(m, i, "T", Digits(p.n), "_");
      assert Signed(false, p.n) == Digits(p.n) && Digits(p.n)[0] in Digits(p.n);
      HasAt(m, i + 1, Digits(p.n), 0);
      SignedReads(m, i + 1, false, p.n);
    }
  }

  lemma OffsetReads(m: string, i: nat, o: Offset)
    requires Has(m, i, PrintOffset(o))
    ensures M.CallOffset(m, i) == M.At(i + |PrintOffset(o)|) && i < |m| && m[i] in "hv"
  {
    hide M.CallOffset, Has;
    match o
    case Plain(negative, n) => PlainOffsetReads(m, i, negative, n);
    case Virtual(negative, n, further, k) => VirtualOffsetReads(m, i, negative, n, further, k);
  }

  lemma PlainOffsetReads(m: string, i: nat, negative: bool, n: nat)
    requires Has(m, i, "h" + Signed(negative, n) + "_")
    ensures M.CallOffset(m, i) == M.At(i + |"h" + Signed(negative, n) + "_"|) && i < |m| && m[i] == 'h'
  {
    hide M.Number, Signed, M.VOffset, Has;
    var a := Signed(negative, n);
    HasThree(m, i, "h", a, "_");
    HasAt(m, i, "h", 0);
    HasAt(m, i + 1 + |a|, "_", 0);
    SignedReads(m, i + 1, negative, n);
  }

  lemma VirtualOffsetReads(m: string, i: nat, negative: bool, n: nat, further: bool, k: nat)
    requires Has(m, i, "v" + Signed(negative, n) + "_" + Signed(further, k) + "_")
    ensures M.CallOffset(m, i) == M.At(i + |"v" + Signed(negative, n) + "_" + Signed(further, k) + "_"|)
    ensures i < |m| && m[i] == 'v'
  {
    hide M.Number, Signed, Has;
    var a, b := Signed(negative, n), Signed(further, k);
    HasTwo(m, i, "v" + a + "_" + b, "_");
    HasFour(m, i, "v", a, "_", b);
    HasAt(m, i, "v", 0);
    HasAt(m, i + 1 + |a|, "_", 0);
    HasAt(m, i + 2 + |a| + |b|, "_", 0);
    SignedReads(m, i + 1, negative, n);
    SignedReads(m, i + 2 + |a|, further, k);
    assert M.VOffset(m, i + 1) == M.At(i + 2 + |a| + |b|);
  }

  /** How an unqualified name starts. */
  lemma UnqualifiedStarts(u: Unqualified)
    requires GoodUnqualified(u)
    ensures var s := PrintUnqualified(u);
            && s != "" && (M.IsLower(s[0]) || M.IsDigit(s[0]) || s[0] in "CDL")
            && (ClassName(u) ==> M.IsDigit(s[0]) || s[0] == 'L')
  {
    match u
    case Operator(code) => CodeLetters(code);
    case Named(id) => assert Digits(|id|)[0] in Digits(|id|);
    case _ =>
  }

  lemma OperatorReads(m: string, i: nat, code: string)
    requires Code(code) && Has(m, i, code)
    ensures M.OperatorName(m, i) == M.At(i + 2)
  {
    hide M.Type, M.SourceName;
    CodeKnown(code);
    CodeLetters(code);
    HasAt(m, i, code, 0);
    HasAt(m, i, code, 1);
    assert m[i..i + 2] == code == [m[i], m[i + 1]];
  }

  lemma UnqualifiedReads(m: string, i: nat, u: Unqualified)
    requires GoodUnqualified(u) && Has(m, i, PrintUnqualified(u))
    requires u.Conversion? ==> M.Type(m, i + 2) == M.At(i + |PrintUnqualified(u)|)
    requires u.LocalNamed? && i + |PrintUnqualified(u)| < |m| ==> m[i + |PrintUnqualified(u)|] != '_'
    ensures M.UnqualifiedName(m, i) == M.At(i + |PrintUnqualified(u)|)
  {
    hide M.Type, M.SourceName, M.OperatorName, M.IsOperator, Digits;
    match u
    case Operator(code) => OperatorReads(m, i, code); CodeLetters(code);
    case Conversion(t) => ConversionReads(m, i, i + |PrintUnqualified(u)|) by { HasTwo(m, i, "cv", PrintType(t)); }
    case VendorOperator(arity, id) => VendorOperatorReads(m, i, arity, id);
    case CtorDtor(kind, c) => CtorDtorReads(m, i, kind, c);
    case Named(id) => NamedReads(m, i, id);
    case LocalNamed(id) => LocalNamedReads(m, i, id);
  }

  lemma CtorDtorReads(m: string, i: nat, kind: char, c: char)
    requires GoodUnqualified(CtorDtor(kind, c)) && Has(m, i, [kind] + [c])
    ensures M.UnqualifiedName(m, i) == M.At(i + 2)
  {
    hide M.SourceName, M.OperatorName, Has;
    HasAt(m, i, [kind] + [c], 0);
    HasAt(m, i, [kind] + [c], 1);
    NoOperator(m, i);
  }

  lemma NamedReads(m: string, i: nat, id: Id)
    requires Has(m, i, Source(id))
    ensures M.UnqualifiedName(m, i) == M.At(i + |Source(id)|)
  {
    hide M.SourceName, M.OperatorName, Has, Source, M.LocalSourceName;
    SourceReads(m, i, id);
    NoOperator(m, i);
    assert M.CtorDtorName(m, i).Fail?;
  }

  lemma LocalNamedReads(m: string, i: nat, id: Id)
    requires Has(m, i, "L" + Source(id)) && (i + 1 + |Source(id)| < |m| ==> m[i + 1 + |Source(id)|] != '_')
    ensures M.UnqualifiedName(m, i) == M.At(i + 1 + |Source(id)|)
  {
    hide M.SourceName, M.OperatorName, Has, Source;
    HasTwo(m, i, "L", Source(id));
    HasAt(m, i, "L", 0);
    SourceReads(m, i + 1, id);
    NoOperator(m, i);
    NoNumber(m, i);
    assert M.CtorDtorName(m, i).Fail?;
    assert M.LocalSourceName(m, i) == M.At(i + 1 + |Source(id)|);
  }

  lemma ConversionReads(m: string, i: nat, j: nat)
    requires Has(m, i, "cv") && M.Type(m, i + 2) == M.At(j)
    ensures M.OperatorName(m, i) == M.At(j)
  {
    hide M.Type, M.SourceName, M.IsOperator;
    HasAt(m, i, "cv", 0);
    HasAt(m, i, "cv", 1);
  }

  lemma VendorOperatorReads(m: string, i: nat, arity: char, id: Id)
    requires M.IsDigit(arity) && Has(m, i, "v" + [arity] + Source(id))
    ensures M.OperatorName(m, i) == M.At(i + 2 + |Source(id)|)
  {
    hide M.Type, M.SourceName, M.IsOperator, Source, Has;
    HasThree(m, i, "v", [arity], Source(id));
    HasAt(m, i, "v", 0);
    HasAt(m, i + 1, [arity], 0);
    SourceReads(m, i + 2, id);
    assert arity in "0123456789";
    assert M.Class(m, i + 1, "0123456789") == M.At(i + 2);
  }

  lemma UnscopedReads(m: string, i: nat, std: bool, j: nat)
    requires if std then Has(m, i, "St") && M.UnqualifiedName(m, i + 2) == M.At(j) else i <= |m| && M.UnqualifiedName(m, i) == M.At(j)
    ensures M.UnscopedName(m, i) == M.At(j)
  {
    hide M.UnqualifiedName;
    if std {
      HasAt(m, i, "St", 0);
      HasAt(m, i, "St", 1);
      NoUnqualified(m, i);
    }
  }

  // ------------------------------------------------------- names

  lemma UnscopedIsName(m: string, i: nat, j: nat)
    requires i < |m| && m[i] !in "NZ" && M.UnscopedName(m, i) == M.At(j) && M.TemplateArgs(m, j).Fail?
    ensures M.Name(m, i) == M.At(j)
  {
    hide M.UnscopedName, M.TemplateArgs, M.Encoding, M.Prefix;
    assert M.LocalEntity(m, i).Fail? && M.LocalString(m, i).Fail?;
    assert M.NestedName(m, i).Fail? && M.LocalName(m, i).Fail? && M.UnscopedTemplateName(m, i) == M.At(j);
  }

  lemma InstanceIsName(m: string, i: nat, j: nat, k: nat)
    requires i < |m| && m[i] !in "NZ" && M.UnscopedTemplateName(m, i) == M.At(j) && M.TemplateArgs(m, j) == M.At(k)
    ensures M.Name(m, i) == M.At(k)
  {
    hide M.UnscopedTemplateName, M.UnscopedName, M.TemplateArgs, M.Encoding, M.Prefix;
    assert M.LocalEntity(m, i).Fail? && M.LocalString(m, i).Fail?;
    assert M.NestedName(m, i).Fail? && M.LocalName(m, i).Fail?;
  }

  lemma NestedIsName(m: string, i: nat, j: nat, k: nat)
    requires i < |m| && m[i] == 'N' && M.CVQualifiers(m, i + 1).OrAt(i + 1) == j && !M.CVQualifiers(m, i + 1).Stuck?
    requires M.Prefix(m, j, false) == M.At(k) && k < |m| && m[k] == 'E'
    ensures M.Name(m, i) == M.At(k + 1)
  {
    hide M.CVQualifiers, M.Prefix, M.LocalName, M.UnscopedTemplateName, M.UnscopedName, M.TemplateArgs;
    assert M.NestedName(m, i) == M.At(k + 1);
  }

  lemma NotNested(m: string, i: nat)
    requires i < |m| && m[i] != 'N'
    ensures M.NestedName(m, i).Fail?
  {
    hide M.Prefix, M.CVQualifiers;
  }

  lemma LocalIsName(m: string, i: nat, k: nat, n: nat)
    requires i < |m| && m[i] == 'Z' && M.Encoding(m, i + 1) == M.At(k) && k < |m| && m[k] == 'E'
    requires M.Name(m, k + 1) == M.At(n)
    ensures M.Name(m, i) == M.At(M.Discriminator(m, n).OrAt(n))
  {
    hide M.Name, M.Encoding, M.Discriminator, M.LocalEntity;
    LocalEntityReads(m, i, k, n);
    LocalEntityIsName(m, i);
  }

  lemma LocalEntityReads(m: string, i: nat, k: nat, n: nat)
    requires i < |m| && m[i] == 'Z' && M.Encoding(m, i + 1) == M.At(k) && k < |m| && m[k] == 'E'
    requires M.Name(m, k + 1) == M.At(n)
    ensures M.LocalEntity(m, i) == M.At(M.Discriminator(m, n).OrAt(n))
  {
    hide M.Name, M.Encoding, M.Discriminator;
  }

  lemma LocalEntityIsName(m: string, i: nat)
    requires i < |m| && m[i] != 'N' && !M.LocalEntity(m, i).Fail?
    ensures M.Name(m, i) == M.LocalEntity(m, i)
  {
    hide M.LocalEntity, M.LocalString, M.NestedName, M.UnscopedTemplateName, M.UnscopedName, M.TemplateArgs;
    NotNested(m, i);
    assert M.LocalName(m, i) == M.LocalEntity(m, i);
  }

  lemma StringIsName(m: string, i: nat, k: nat)
    requires i < |m| && m[i] == 'Z' && M.Encoding(m, i + 1) == M.At(k) && Has(m, k, "Es") && Over(m, k + 2)
    ensures M.Name(m, i) == M.At(k + 2)
  {
    hide M.Name, M.Encoding, M.Number, Has;
    HasAt(m, k, "Es", 0);
    HasAt(m, k, "Es", 1);
    NoNameAtS(m, k + 1);
    assert M.LocalEntity(m, i).Fail?;
    assert M.LocalString(m, i) == M.At(k + 2);
    LocalStringIsName(m, i);
  }

  lemma LocalStringIsName(m: string, i: nat)
    requires i < |m| && m[i] != 'N' && M.LocalEntity(m, i).Fail? && !M.LocalString(m, i).Fail?
    ensures M.Name(m, i) == M.LocalString(m, i)
  {
    hide M.LocalEntity, M.LocalString, M.NestedName, M.UnscopedTemplateName, M.UnscopedName, M.TemplateArgs;
    NotNested(m, i);
    assert M.LocalName(m, i) == M.LocalString(m, i);
  }

  /** An 's' that nothing follows is no name. */
  lemma NoNameAtS(m: string, i: nat)
    requires i < |m| && m[i] == 's' && Over(m, i + 1)
    ensures M.Name(m, i).Fail?
  {
    hide M.Type, M.SourceName, M.Encoding, M.Prefix, M.TemplateArgs, M.IsOperator;
    NoNumber(m, i);
    if i + 1 < |m| { NoOperatorAtS(m, i); }
    assert M.OperatorName(m, i).Fail?;
    assert M.UnqualifiedName(m, i).Fail?;
    assert M.UnscopedName(m, i).Fail? && M.Substitution(m, i).Fail?;
    assert M.LocalEntity(m, i).Fail? && M.LocalString(m, i).Fail?;
    assert M.NestedName(m, i).Fail? && M.LocalName(m, i).Fail? && M.UnscopedTemplateName(m, i).Fail?;
  }

  lemma NoOperatorAtS(m: string, i: nat)
    requires i + 1 < |m| && m[i] == 's' && m[i + 1] in "E.@"
    ensures !M.IsOperator(m, i)
  {
    if m[i + 1] == 'E' { NoCode(m, i); }
  }

  // ------------------------------------------------------- types

  lemma QualifiedIsType(m: string, i: nat, j: nat, k: nat)
    requires i <= |m| && M.CVQualifiers(m, i) == M.At(j) && M.Type(m, j) == M.At(k)
    ensures M.Type(m, i) == M.At(k)
  {
    hide M.CVQualifiers, M.PackOrDecltype, M.VendorType;
    assert M.ModifiedType(m, i) == M.At(k) by { hide M.Type; }
    hide M.ModifiedType, M.WholeType, M.TemplatedType;
  }

  lemma ModifiedIsType(m: string, i: nat, k: nat)
    requires i <= |m| && M.ModifiedType(m, i) == M.At(k)
    ensures M.Type(m, i) == M.At(k)
  {
    hide M.ModifiedType, M.WholeType, M.TemplatedType;
  }

  lemma LetterIsType(m: string, i: nat, k: nat)
    requires i < |m| && m[i] in "OPRCG" && M.Type(m, i + 1) == M.At(k)
    ensures M.Type(m, i) == M.At(k)
  {
    hide M.Type, M.PackOrDecltype, M.VendorType;
    assert M.ModifiedType(m, i) == M.At(k);
    ModifiedIsType(m, i, k);
  }

  lemma ExpansionIsType(m: string, i: nat, k: nat)
    requires Has(m, i, "Dp") && M.Type(m, i + 2) == M.At(k)
    ensures M.Type(m, i) == M.At(k)
  {
    hide M.Type, M.Expression, M.VendorType;
    HasAt(m, i, "Dp", 0);
    HasAt(m, i, "Dp", 1);
    assert M.PackOrDecltype(m, i) == M.At(k);
    assert M.ModifiedType(m, i) == M.At(k);
    ModifiedIsType(m, i, k);
  }

  lemma DecltypeIsType(m: string, i: nat, k: nat)
    requires i + 1 < |m| && m[i] == 'D' && m[i + 1] in "tT" && M.Expression(m, i + 2) == M.At(k) && k < |m| && m[k] == 'E'
    ensures M.Type(m, i) == M.At(k + 1)
  {
    hide M.Type, M.Expression, M.VendorType;
    assert M.PackOrDecltype(m, i) == M.At(k + 1);
    assert M.ModifiedType(m, i) == M.At(k + 1);
    ModifiedIsType(m, i, k + 1);
  }

  lemma VendorIsType(m: string, i: nat, j: nat, k: nat)
    requires i < |m| && m[i] == 'U' && M.SourceName(m, i + 1) == M.At(j) && M.Type(m, j) == M.At(k)
    ensures M.Type(m, i) == M.At(k)
  {
    hide M.Type, M.Expression, M.SourceName;
    assert M.VendorType(m, i) == M.At(k) && M.PackOrDecltype(m, i).Fail?;
    assert M.ModifiedType(m, i) == M.At(k);
    ModifiedIsType(m, i, k);
  }

  lemma WholeIsType(m: string, i: nat, k: nat)
    requires i < |m| && m[i] !in "rVKOPRCGDU" && M.WholeType(m, i) == M.At(k)
    ensures M.Type(m, i) == M.At(k)
  {
    hide M.ModifiedType, M.WholeType, M.TemplatedType;
    NotModified(m, i);
  }

  lemma BuiltinIsType(m: string, i: nat)
    requires i < |m| && m[i] in "vwbcahstijlmxynofdegz"
    ensures M.Type(m, i) == M.At(i + 1)
  {
    hide M.BuiltinType, M.FunctionType, M.Name, M.ArrayType, M.PointerToMemberType, M.Substitution, M.Type;
    BuiltinLetter(m, i);
    assert M.WholeType(m, i) == M.At(i + 1);
    WholeIsType(m, i, i + 1);
  }

  lemma BuiltinLetter(m: string, i: nat)
    requires i < |m| && m[i] in "vwbcahstijlmxynofdegz"
    ensures M.BuiltinType(m, i) == M.At(i + 1) && m[i] !in "rVKOPRCGDU"
  {
    hide M.Keys, M.SourceName;
    BuiltinCodes();
  }

  lemma VendorBuiltinIsType(m: string, i: nat, k: nat)
    requires i < |m| && m[i] == 'u' && M.SourceName(m, i + 1) == M.At(k)
    ensures M.Type(m, i) == M.At(k)
  {
    hide M.BuiltinType, M.FunctionType, M.Name, M.ArrayType, M.PointerToMemberType, M.Substitution, M.Type;
    VendorLetter(m, i);
    assert M.WholeType(m, i) == M.At(k);
    WholeIsType(m, i, k);
  }

  lemma VendorLetter(m: string, i: nat)
    requires i < |m| && m[i] == 'u'
    ensures M.BuiltinType(m, i) == M.SourceName(m, i + 1)
  {
    hide M.Keys, M.SourceName;
    BuiltinCodes();
  }

  lemma FunctionIsType(m: string, i: nat, j: nat, k: nat)
    requires i + 1 < |m| && m[i] == 'F' && j == (if m[i + 1] == 'Y' then i + 2 else i + 1)
    requires M.BareFunctionType(m, j) == M.At(k) && k < |m| && m[k] == 'E'
    ensures M.Type(m, i) == M.At(k + 1)
  {
    hide M.BareFunctionType, M.BuiltinType, M.Name, M.ArrayType, M.PointerToMemberType, M.Substitution, M.Type;
    NotBuiltin(m, i);
    assert M.FunctionType(m, i) == M.At(k + 1);
    assert M.WholeType(m, i) == M.At(k + 1);
    WholeIsType(m, i, k + 1);
  }

  /** A name is tried as a type when no builtin type and no function type starts there. */
  lemma NameIsType(m: string, i: nat, k: nat)
    requires i < |m| && (M.IsDigit(m[i]) || m[i] in "LNZS") && M.Name(m, i) == M.At(k)
    ensures M.Type(m, i) == M.At(k)
  {
    hide M.BareFunctionType, M.BuiltinType, M.Name, M.ArrayType, M.PointerToMemberType, M.Substitution, M.Type,
         M.IsDigit;
    NameLetter(m[i]);
    NotBuiltinCapital(m, i);
    assert M.FunctionType(m, i).Fail?;
    assert M.WholeType(m, i) == M.At(k);
    WholeIsType(m, i, k);
  }

  lemma NameLetter(c: char)
    requires M.IsDigit(c) || c in "LNZS"
    ensures !M.IsLower(c) && c !in "rVKOPRCGDU" && c != 'F'
  {
  }

  lemma NotBuiltinCapital(m: string, i: nat)
    requires i < |m| && !M.IsLower(m[i])
    ensures M.BuiltinType(m, i).Fail?
  {
    hide M.BuiltinType;
    NotBuiltin(m, i);
  }

  lemma ArrayIsType(m: string, i: nat, k: nat)
    requires i < |m| && m[i] == 'A' && M.ArrayType(m, i) == M.At(k)
    ensures M.Type(m, i) == M.At(k)
  {
    hide M.BareFunctionType, M.BuiltinType, M.Name, M.ArrayType, M.PointerToMemberType, M.Substitution, M.Type;
    NotBuiltin(m, i);
    NoName(m, i);
    assert M.FunctionType(m, i).Fail?;
    assert M.WholeType(m, i) == M.At(k);
    WholeIsType(m, i, k);
  }

  lemma SizedIsArray(m: string, i: nat, j: nat, k: nat)
    requires i < |m| && m[i] == 'A' && M.Number(m, i + 1) == M.At(j) && j < |m| && m[j] == '_' && M.Type(m, j + 1) == M.At(k)
    ensures M.Type(m, i) == M.At(k)
  {
    hide M.Number, M.Type, M.VariableArray;
    assert M.SizedArray(m, i) == M.At(k);
    assert M.ArrayType(m, i) == M.At(k);
    ArrayIsType(m, i, k);
  }

  lemma UnsizedIsArray(m: string, i: nat, j: nat, k: nat)
    requires i + 1 < |m| && m[i] == 'A' && M.Number(m, i + 1).Fail? && M.Expression(m, i + 1).Optional(i + 1) == M.At(j)
    requires j < |m| && m[j] == '_' && M.Type(m, j + 1) == M.At(k)
    ensures M.Type(m, i) == M.At(k)
  {
    hide M.Number, M.Type, M.Expression;
    assert M.SizedArray(m, i).Fail? && M.VariableArray(m, i) == M.At(k);
    assert M.ArrayType(m, i) == M.At(k);
    ArrayIsType(m, i, k);
  }

  lemma MemberIsType(m: string, i: nat, j: nat, k: nat)
    requires i < |m| && m[i] == 'M' && M.Type(m, i + 1) == M.At(j) && M.Type(m, j) == M.At(k)
    ensures M.Type(m, i) == M.At(k)
  {
    hide M.BareFunctionType, M.BuiltinType, M.Name, M.ArrayType, M.Substitution, M.Type;
    NotBuiltin(m, i);
    NoName(m, i);
    NoArrayOrFunction(m, i);
    assert M.PointerToMemberType(m, i) == M.At(k);
    assert M.WholeType(m, i) == M.At(k);
    WholeIsType(m, i, k);
  }

  lemma NoArrayOrFunction(m: string, i: nat)
    requires i < |m| && m[i] !in "AF"
    ensures M.ArrayType(m, i).Fail? && M.FunctionType(m, i).Fail?
  {
    hide M.Type, M.Expression, M.BareFunctionType;
    assert M.SizedArray(m, i).Fail? && M.VariableArray(m, i).Fail?;
  }

  lemma SubIsType(m: string, i: nat, k: nat)
    requires i < |m| && m[i] == 'S' && M.Substitution(m, i) == M.At(k) && M.UnscopedName(m, i).Fail? && M.TemplateArgs(m, k).Fail?
    ensures M.Type(m, i) == M.At(k)
  {
    hide M.BuiltinType, M.Name, M.ArrayType, M.FunctionType, M.PointerToMemberType, M.Substitution, M.Type,
         M.TemplateArgs, M.UnscopedName;
    NotBuiltin(m, i);
    NoArrayOrFunction(m, i);
    NoTypeLetter(m, i);
    SubIsNoName(m, i, k);
    assert M.WholeType(m, i) == M.At(k);
    WholeIsType(m, i, k);
  }

  lemma SubIsNoName(m: string, i: nat, k: nat)
    requires i < |m| && m[i] == 'S' && M.Substitution(m, i) == M.At(k) && M.UnscopedName(m, i).Fail? && M.TemplateArgs(m, k).Fail?
    ensures M.Name(m, i).Fail?
  {
    hide M.Substitution, M.TemplateArgs, M.UnscopedName, M.Encoding, M.Prefix;
    assert M.LocalEntity(m, i).Fail? && M.LocalString(m, i).Fail?;
    assert M.NestedName(m, i).Fail? && M.LocalName(m, i).Fail? && M.UnscopedTemplateName(m, i) == M.At(k);
  }

  lemma NoWholeAtT(m: string, i: nat)
    requires i < |m| && m[i] == 'T'
    ensures M.WholeType(m, i).Fail? && M.ModifiedType(m, i).Fail?
  {
    hide M.BuiltinType, M.Name, M.ArrayType, M.FunctionType, M.PointerToMemberType, M.Substitution,
         M.ModifiedType, M.UnscopedName;
    NotModified(m, i);
    NotBuiltin(m, i);
    NoName(m, i);
    NoArrayOrFunction(m, i);
    assert M.PointerToMemberType(m, i).Fail? by { MemberNeedsM(m, i); }
  }

  lemma MemberNeedsM(m: string, i: nat)
    requires i < |m| && m[i] != 'M'
    ensures M.PointerToMemberType(m, i).Fail?
  {
    hide M.Type;
  }

  lemma ParamIsType(m: string, i: nat, k: nat)
    requires i < |m| && m[i] == 'T' && M.TemplateParam(m, i) == M.At(k) && M.TemplateArgs(m, k).Fail?
    ensures M.Type(m, i) == M.At(k)
  {
    hide M.WholeType, M.ModifiedType, M.TemplateParam, M.TemplateArgs, M.Substitution;
    NoWholeAtT(m, i);
    assert M.TemplatedType(m, i) == M.At(k);
  }

  lemma ParamInstanceIsType(m: string, i: nat, j: nat, k: nat)
    requires i < |m| && m[i] == 'T' && M.TemplateParam(m, i) == M.At(j) && M.TemplateArgs(m, j) == M.At(k)
    ensures M.Type(m, i) == M.At(k)
  {
    hide M.WholeType, M.ModifiedType, M.TemplateParam, M.TemplateArgs, M.Substitution;
    NoWholeAtT(m, i);
    assert M.TemplatedType(m, i) == M.At(k);
  }

  // ------------------------------------------------------- template arguments and literals

  lemma TypeIsArg(m: string, i: nat, k: nat)
    requires i < |m| && m[i] != 'I' && M.Type(m, i) == M.At(k)
    ensures M.TemplateArg(m, i) == M.At(k)
  {
    hide M.Type, M.ExprPrimary, M.Expression, M.ArgList;
  }

  lemma LiteralIsArg(m: string, i: nat, k: nat)
    requires i + 1 < |m| && m[i] == 'L' && !M.IsDigit(m[i + 1]) && m[i + 1] != 'n' && M.ExprPrimary(m, i) == M.At(k)
    ensures M.TemplateArg(m, i) == M.At(k)
  {
    hide M.Type, M.ExprPrimary, M.Expression, M.ArgList;
    NoType(m, i);
  }

  lemma ExprIsArg(m: string, i: nat, k: nat)
    requires i < |m| && m[i] == 'X' && M.Expression(m, i + 1) == M.At(k) && k < |m| && m[k] == 'E'
    ensures M.TemplateArg(m, i) == M.At(k + 1)
  {
    hide M.Type, M.Expression, M.ArgList, M.MangledName, M.Encoding;
    NoType(m, i);
    assert M.IntegerLiteral(m, i).Fail? && M.FloatLiteral(m, i).Fail? && M.NameLiteral(m, i).Fail?;
    assert M.ExprPrimary(m, i).Fail?;
  }

  lemma PackIsArg(m: string, i: nat, k: nat)
    requires i < |m| && m[i] == 'I' && M.ArgList(m, i + 1) == M.At(k) && k < |m| && m[k] == 'E'
    ensures M.TemplateArg(m, i) == M.At(k + 1)
  {
    hide M.Type, M.Expression, M.ArgList, M.ExprPrimary;
    assert M.Token(m, i, 'I') == M.At(i + 1) && M.Token(m, k, 'E') == M.At(k + 1);
  }

  lemma ListIsArgs(m: string, i: nat, k: nat)
    requires i < |m| && m[i] == 'I' && M.ArgList(m, i + 1) == M.At(k) && i + 1 < k < |m| && m[k] == 'E'
    ensures M.TemplateArgs(m, i) == M.At(k + 1)
  {
    hide M.ArgList;
  }

  lemma IntegerIsLiteral(m: string, i: nat, j: nat, k: nat)
    requires i < |m| && m[i] == 'L' && M.Type(m, i + 1) == M.At(j) && M.Number(m, j) == M.At(k) && k < |m| && m[k] == 'E'
    ensures M.ExprPrimary(m, i) == M.At(k + 1)
  {
    hide M.Type, M.Number, M.FloatLiteral, M.NameLiteral;
    assert M.IntegerLiteral(m, i) == M.At(k + 1);
  }

  /** Decimal digits at the start of a float are tried as an integer first. */
  lemma FloatIsLiteral(m: string, i: nat, j: nat, hex: string)
    requires i < |m| && m[i] == 'L' && M.Type(m, i + 1) == M.At(j) && hex != "" && Has(m, j, hex + "E")
    requires forall c | c in hex :: M.IsHex(c)
    ensures M.ExprPrimary(m, i) == M.At(j + |hex| + 1)
  {
    hide M.Type, M.NameLiteral, M.Number, M.Some, Has, M.IsHex;
    var k := j + |hex|;
    HexReads(m, j, hex);
    assert M.FloatLiteral(m, i) == M.At(k + 1);
    assert M.IntegerLiteral(m, i).Fail? || M.IntegerLiteral(m, i) == M.At(k + 1);
  }

  lemma HexReads(m: string, j: nat, hex: string)
    requires hex != "" && Has(m, j, hex + "E") && forall c | c in hex :: M.IsHex(c)
    ensures var k := j + |hex|;
            && k < |m| && m[k] == 'E' && M.Some(m, j, M.IsHex) == M.At(k)
            && (M.Number(m, j).Fail? || (M.Number(m, j).At? && M.Number(m, j).next <= k
                                         && (M.Number(m, j).next < k ==> m[M.Number(m, j).next] != 'E')))
  {
    hide M.Span;
    HasTwo(m, j, hex, "E");
    HasAt(m, j + |hex|, "E", 0);
    SpanIs(m, j, hex, M.IsHex);
    assert forall c | M.IsDigit(c) :: M.IsHex(c);
    forall d | j <= d < j + |hex| ensures M.IsHex(m[d]) {
      HasAt(m, j, hex, d - j);
      assert hex[d - j] in hex;
    }
  }

  lemma AddressIsLiteral(m: string, i: nat, k: nat)
    requires Has(m, i, "L_Z") && M.Encoding(m, i + 3) == M.At(k) && k < |m| && m[k] == 'E'
    ensures M.ExprPrimary(m, i) == M.At(k + 1)
  {
    hide M.Type, M.Encoding;
    HasAt(m, i, "L_Z", 0);
    HasAt(m, i, "L_Z", 1);
    HasAt(m, i, "L_Z", 2);
    NoType(m, i + 1);
    assert M.MangledName(m, i + 1) == M.At(k);
    hide M.MangledName;
    assert M.IntegerLiteral(m, i).Fail? && M.FloatLiteral(m, i).Fail? && M.NameLiteral(m, i) == M.At(k + 1);
  }

  // ------------------------------------------------------- expressions

  lemma ParamIsExpr(m: string, i: nat, k: nat)
    requires i <= |m| && M.TemplateParam(m, i) == M.At(k)
    ensures M.Expression(m, i) == M.At(k)
  {
    hide M.TemplateParam, M.ExprPrimary, M.OperatorExpression, M.TypeExpression;
  }

  lemma LiteralIsExpr(m: string, i: nat, k: nat)
    requires i < |m| && m[i] == 'L' && M.ExprPrimary(m, i) == M.At(k)
    ensures M.Expression(m, i) == M.At(k)
  {
    hide M.ExprPrimary, M.OperatorExpression, M.TypeExpression;
  }

  lemma NoParamOrLiteral(m: string, i: nat)
    requires i < |m| && m[i] != 'T' && m[i] != 'L'
    ensures M.TemplateParam(m, i).Fail? && M.ExprPrimary(m, i).Fail?
  {
    hide M.Type, M.MangledName, M.Encoding;
    assert M.IntegerLiteral(m, i).Fail? && M.FloatLiteral(m, i).Fail? && M.NameLiteral(m, i).Fail?;
  }

  /** Operands are taken as long as there are some. */
  lemma UnaryIsExpr(m: string, i: nat, a: nat)
    requires i < |m| && M.IsLower(m[i]) && M.OperatorName(m, i) == M.At(i + 2) && M.Expression(m, i + 2) == M.At(a)
    requires M.Expression(m, a).Fail?
    ensures M.Expression(m, i) == M.At(a)
  {
    hide M.OperatorName, M.TypeExpression, M.TemplateParam, M.ExprPrimary;
    NoParamOrLiteral(m, i);
    assert M.OperatorExpression(m, i) == M.At(a) by { hide M.Expression; }
    hide M.OperatorExpression;
  }

  lemma BinaryIsExpr(m: string, i: nat, a: nat, b: nat)
    requires i < |m| && M.IsLower(m[i]) && M.OperatorName(m, i) == M.At(i + 2) && M.Expression(m, i + 2) == M.At(a)
    requires M.Expression(m, a) == M.At(b) && M.Expression(m, b).Fail?
    ensures M.Expression(m, i) == M.At(b)
  {
    hide M.OperatorName, M.TypeExpression, M.TemplateParam, M.ExprPrimary;
    NoParamOrLiteral(m, i);
    assert M.OperatorExpression(m, i) == M.At(b) by { hide M.Expression; }
    hide M.OperatorExpression;
  }

  lemma TernaryIsExpr(m: string, i: nat, a: nat, b: nat, c: nat)
    requires i < |m| && M.IsLower(m[i]) && M.OperatorName(m, i) == M.At(i + 2) && M.Expression(m, i + 2) == M.At(a)
    requires M.Expression(m, a) == M.At(b) && M.Expression(m, b) == M.At(c)
    ensures M.Expression(m, i) == M.At(c)
  {
    hide M.OperatorName, M.TypeExpression, M.TemplateParam, M.ExprPrimary;
    NoParamOrLiteral(m, i);
    assert M.OperatorExpression(m, i) == M.At(c) by { hide M.Expression; }
    hide M.OperatorExpression;
  }

  /** `st` is tried as an operator first. */
  lemma SizeofIsExpr(m: string, i: nat, k: nat)
    requires Has(m, i, "st") && i + 2 < |m| && NoOperand(m[i + 2]) && M.Type(m, i + 2) == M.At(k)
    ensures M.Expression(m, i) == M.At(k)
  {
    hide M.Type, M.OperatorName, M.UnqualifiedName, M.TemplateArgs, M.TemplateParam, M.ExprPrimary;
    HasAt(m, i, "st", 0);
    HasAt(m, i, "st", 1);
    OperatorReads(m, i, "st");
    NoParamOrLiteral(m, i);
    NoExpr(m, i + 2);
    assert M.OperatorExpression(m, i).Fail? && M.TypeExpression(m, i) == M.At(k) by { hide M.Expression; }
    hide M.OperatorExpression, M.TypeExpression;
  }

  lemma ScopedIsExpr(m: string, i: nat, j: nat, k: nat)
    requires Has(m, i, "sr") && M.Type(m, i + 2) == M.At(j) && M.UnqualifiedName(m, j) == M.At(k)
    ensures M.TemplateArgs(m, k).Fail? ==> M.Expression(m, i) == M.At(k)
    ensures M.TemplateArgs(m, k).At? ==> M.Expression(m, i) == M.TemplateArgs(m, k)
  {
    hide M.Type, M.OperatorName, M.UnqualifiedName, M.TemplateArgs, M.TemplateParam, M.ExprPrimary, M.IsOperator;
    HasAt(m, i, "sr", 0);
    HasAt(m, i, "sr", 1);
    NoCode(m, i);
    NoOperatorAt(m, i);
    NoParamOrLiteral(m, i);
    assert M.OperatorExpression(m, i).Fail? by { hide M.Expression; }
    hide M.OperatorExpression;
  }

  lemma NoOperatorAt(m: string, i: nat)
    requires i + 1 < |m| && m[i] != 'c' && m[i] != 'v' && !M.IsOperator(m, i)
    ensures M.OperatorName(m, i).Fail?
  {
    hide M.Type, M.SourceName, M.IsOperator;
  }

  // ------------------------------------------------------- entities

  lemma ObjectIsEntity(m: string, i: nat, j: nat, k: nat)
    requires i <= |m| && M.Name(m, i) == M.At(j) && M.Types(m, j) == M.At(k)
    ensures M.Encoding(m, i) == M.At(k)
  {
    hide M.Name, M.Types, M.SpecialName;
  }

  lemma SpecialIsEntity(m: string, i: nat, k: nat)
    requires i < |m| && m[i] in "TG" && M.SpecialName(m, i) == M.At(k)
    ensures M.Encoding(m, i) == M.At(k)
  {
    hide M.Name, M.BareFunctionType, M.SpecialName, M.UnscopedName, M.Substitution;
    NoName(m, i);
  }

  lemma TableIsEntity(m: string, i: nat, k: nat)
    requires i + 1 < |m| && m[i] == 'T' && m[i + 1] in "VTIS" && M.Type(m, i + 2) == M.At(k)
    ensures M.Encoding(m, i) == M.At(k)
  {
    hide M.Type, M.Name, M.CallOffset, M.CovariantThunk, M.GnuSpecialName, M.Encoding;
    assert M.StandardSpecialName(m, i) == M.At(k);
    SpecialIsEntity(m, i, k);
  }

  lemma GuardIsEntity(m: string, i: nat, k: nat)
    requires Has(m, i, "GV") && M.Name(m, i + 2) == M.At(k)
    ensures M.Encoding(m, i) == M.At(k)
  {
    hide M.Type, M.Name, M.CallOffset, M.GnuSpecialName, M.Encoding;
    HasAt(m, i, "GV", 0);
    HasAt(m, i, "GV", 1);
    assert M.CovariantThunk(m, i).Fail?;
    assert M.StandardSpecialName(m, i) == M.At(k);
    SpecialIsEntity(m, i, k);
  }

  lemma ThunkIsEntity(m: string, i: nat, j: nat, k: nat)
    requires i + 1 < |m| && m[i] == 'T' && m[i + 1] in "hv" && M.CallOffset(m, i + 1) == M.At(j) && M.Encoding(m, j) == M.At(k)
    ensures M.Encoding(m, i) == M.At(k)
  {
    hide M.Type, M.Name, M.CallOffset, M.GnuSpecialName, M.Encoding;
    assert M.CovariantThunk(m, i).Fail?;
    assert M.StandardSpecialName(m, i) == M.At(k);
    SpecialIsEntity(m, i, k);
  }

  lemma CovariantIsEntity(m: string, i: nat, j: nat, l: nat, k: nat)
    requires Has(m, i, "Tc") && M.CallOffset(m, i + 2) == M.At(j) && M.CallOffset(m, j) == M.At(l) && M.Encoding(m, l) == M.At(k)
    ensures M.Encoding(m, i) == M.At(k)
  {
    hide M.Type, M.Name, M.CallOffset, M.GnuSpecialName, M.Encoding;
    HasAt(m, i, "Tc", 0);
    HasAt(m, i, "Tc", 1);
    assert M.CovariantThunk(m, i) == M.At(k);
    assert M.StandardSpecialName(m, i) == M.At(k);
    SpecialIsEntity(m, i, k);
  }

  /** None of the standard special names, but one of G++. */
  lemma GnuIsEntity(m: string, i: nat, k: nat)
    requires i + 1 < |m| && ((m[i] == 'T' && m[i + 1] in "CFJ") || (m[i] == 'G' && m[i + 1] != 'V'))
    requires M.GnuSpecialName(m, i) == M.At(k)
    ensures M.Encoding(m, i) == M.At(k)
  {
    hide M.Type, M.Name, M.GnuSpecialName, M.Encoding, M.Number, M.VOffset;
    assert M.CovariantThunk(m, i).Fail?;
    assert M.StandardSpecialName(m, i).Fail?;
    hide M.StandardSpecialName;
    SpecialIsEntity(m, i, k);
  }

  lemma ConstructionIsEntity(m: string, i: nat, j: nat, n: nat, k: nat)
    requires Has(m, i, "TC") && M.Type(m, i + 2) == M.At(j) && M.Number(m, j) == M.At(n) && n < |m| && m[n] == '_'
    requires M.Type(m, n + 1) == M.At(k)
    ensures M.Encoding(m, i) == M.At(k)
  {
    hide M.Type, M.Name, M.Number, M.Encoding, M.CallOffset;
    HasAt(m, i, "TC", 0);
    HasAt(m, i, "TC", 1);
    assert M.ConstructionTable(m, i) == M.At(k);
    hide M.ConstructionTable;
    assert M.GnuSpecialName(m, i) == M.At(k);
    GnuIsEntity(m, i, k);
  }

  lemma NoConstruction(m: string, i: nat)
    requires i + 1 < |m| && (m[i] != 'T' || m[i + 1] != 'C')
    ensures M.ConstructionTable(m, i).Fail?
  {
    hide M.Type, M.Number;
  }

  lemma TypeInfoIsEntity(m: string, i: nat, k: nat)
    requires i + 1 < |m| && m[i] == 'T' && m[i + 1] in "FJ" && M.Type(m, i + 2) == M.At(k)
    ensures M.Encoding(m, i) == M.At(k)
  {
    hide M.Type, M.Name, M.ConstructionTable, M.Encoding, M.CallOffset;
    NoConstruction(m, i);
    assert M.GnuSpecialName(m, i) == M.At(k);
    GnuIsEntity(m, i, k);
  }

  lemma TemporaryIsEntity(m: string, i: nat, k: nat)
    requires Has(m, i, "GR") && M.Name(m, i + 2) == M.At(k)
    ensures M.Encoding(m, i) == M.At(k)
  {
    hide M.Type, M.Name, M.ConstructionTable, M.Encoding, M.CallOffset;
    HasAt(m, i, "GR", 0);
    HasAt(m, i, "GR", 1);
    NoConstruction(m, i);
    assert M.GnuSpecialName(m, i) == M.At(k);
    GnuIsEntity(m, i, k);
  }

  lemma AliasIsEntity(m: string, i: nat, k: nat)
    requires Has(m, i, "GA") && M.Encoding(m, i + 2) == M.At(k)
    ensures M.Encoding(m, i) == M.At(k)
  {
    hide M.Type, M.Name, M.ConstructionTable, M.Encoding, M.CallOffset;
    HasAt(m, i, "GA", 0);
    HasAt(m, i, "GA", 1);
    NoConstruction(m, i);
    assert M.GnuSpecialName(m, i) == M.At(k);
    GnuIsEntity(m, i, k);
  }

  // ------------------------------------------------------- the prefix loop

  lemma PrefixPart(m: string, i: nat, j: nat, has: bool)
    requires i <= |m| && M.Component(m, i) == M.At(j)
    ensures M.Prefix(m, i, has) == M.Prefix(m, j, true)
  {
    hide M.Component, M.TemplateArgs;
  }

  lemma PrefixArgs(m: string, i: nat, j: nat)
    requires i <= |m| && M.Component(m, i).Fail? && M.TemplateArgs(m, i) == M.At(j)
    ensures M.Prefix(m, i, true) == M.Prefix(m, j, false)
  {
    hide M.Component, M.TemplateArgs;
  }

  lemma PrefixEnds(m: string, i: nat, has: bool)
    requires i <= |m| && M.Component(m, i).Fail? && M.TemplateArgs(m, i).Fail?
    ensures M.Prefix(m, i, has) == M.At(i)
  {
    hide M.Component, M.TemplateArgs;
  }
}
