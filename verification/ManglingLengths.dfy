/** Negative source-name lengths, which the grammar excludes and the number parser lets
    through: where the parsers get stuck on one, and names on which they do not. */
module ManglingLengths {
  import opened Mangling
  import T = ManglingTerms
  import S = ManglingSteps
  import N = ManglingNames

  lemma {:induction false} DecimalNonNegative(digits: string)
    requires forall c | c in digits :: IsDigit(c)
    ensures Decimal(digits) >= 0
  {
    if digits != "" {
      assert digits[|digits| - 1] in digits;
      DecimalNonNegative(digits[..|digits| - 1]);
    }
  }

  /** A source name fails to move the cursor forward only after a sign. */
  lemma BackwardNeedsSign(m: string, i: nat)
    requires i <= |m| && !Advances(m, i)
    ensures i + 1 < |m| && m[i] == 'n' && IsDigit(m[i + 1])
  {
    var j := DigitsStart(m, i);
    var k := Number(m, i).next;
    assert forall c | c in m[j..k] :: IsDigit(c);
    DecimalNonNegative(m[j..k]);
  }

  /** So nothing gets stuck on a name in which no digit follows an 'n'. */
  lemma NoSignNeverStuck(m: string)
    requires forall i | 0 <= i < |m| - 1 && m[i] == 'n' :: !IsDigit(m[i + 1])
    ensures !MangledName(m, 0).Stuck?
  {
    hide MangledName, Advances;
    match MangledName(m, 0)
    case Stuck(k) => BackwardNeedsSign(m, k);
    case _ =>
  }

  /** None of the alternatives that come before a source name starts with a digit, or with
      an 'n' and a digit. */
  lemma NothingElseStarts(m: string, i: nat)
    requires i < |m| && (IsDigit(m[i]) || (i + 1 < |m| && m[i] == 'n' && IsDigit(m[i + 1])))
    ensures TemplateParam(m, i).Fail? && Substitution(m, i).Fail? && OperatorName(m, i).Fail? && CtorDtorName(m, i).Fail?
  {
    hide Type, SourceName;
    if i + 1 < |m| { assert !IsOperator(m, i); }
  }

  /** A component of a prefix is stuck at its own start exactly where a source name there
      does not move forward. */
  lemma ComponentStuckIff(m: string, i: nat)
    requires i <= |m|
    ensures Component(m, i) == Stuck(i) <==> !Advances(m, i)
  {
    hide TemplateParam, Substitution, OperatorName, CtorDtorName, LocalSourceName, Advances, HasName;
    if !Advances(m, i) {
      BackwardNeedsSign(m, i);
      NothingElseStarts(m, i);
      StuckThere(m, i);
      assert UnqualifiedName(m, i) == Stuck(i);
      assert UnscopedName(m, i) == Stuck(i);
    }
  }

  lemma StuckThere(m: string, i: nat)
    requires i <= |m| && !Advances(m, i)
    ensures SourceName(m, i) == Stuck(i)
  {
  }

  // rounds of the prefix loop

  /** One round of the loop in the code: where the component ends, or, at a length that does
      not move forward, where that takes the cursor; the source name succeeds there, too. */
  predicate Round(m: string, i: nat, j: nat)
    requires i <= |m|
  {
    Component(m, i) == At(j) || (!Advances(m, i) && NameEnd(m, i) == j)
  }

  ghost predicate Rounds(m: string, at: seq<nat>) {
    (forall k | 0 <= k < |at| :: at[k] <= |m|) && forall k, l | 0 <= k < l == k + 1 < |at| :: Round(m, at[k], at[l])
  }

  /** When the cursor comes back to where it was, the loop never ends: it goes on for any
      number of rounds. */
  lemma {:induction false} ReturnMeansForever(m: string, cycle: seq<nat>, n: nat) returns (at: seq<nat>)
    requires Rounds(m, cycle) && |cycle| >= 2 && cycle[|cycle| - 1] == cycle[0]
    ensures Rounds(m, at) && |at| > n && at[0] == cycle[0] && at[|at| - 1] == cycle[0]
    decreases n
  {
    hide Round;
    if n == 0 { return cycle; }
    var rest := ReturnMeansForever(m, cycle, n - 1);
    at := cycle[..|cycle| - 1] + rest;
    assert cycle == cycle[..|cycle| - 1] + [cycle[0]];
    forall k, l | 0 <= k < l == k + 1 < |at| ensures Round(m, at[k], at[l]) {
      if l < |cycle| {
        assert Round(m, cycle[k], cycle[l]);
        assert at[k] == cycle[k] && at[l] == cycle[l];
      } else {
        var k', l' := k - (|cycle| - 1), l - (|cycle| - 1);
        assert Round(m, rest[k'], rest[l']);
      }
    }
  }

  // a name that gets stuck, and names that do not

  lemma BackToSign(m: string)
    requires m == "_ZNn2E"
    ensures Number(m, 3).At? && NameEnd(m, 3) == 3 && !Advances(m, 3)
  {
    assert Span(m, 4, IsDigit) == 5 by { assert Span(m, 5, IsDigit) == 5; }
    assert m[4..5][..0] == "" && Decimal("") == 0;
    assert m[4..5] == "2" && Decimal("2") == 2;
  }

  /** On this name the loop is reached and stays at the sign for ever. */
  lemma LoopsForever(n: nat) returns (at: seq<nat>)
    ensures MangledName("_ZNn2E", 0) == Stuck(3)
    ensures Rounds("_ZNn2E", at) && |at| > n && at[0] == 3
  {
    hide MangledName, Component, Number, NumberValue, NameEnd, Advances, HasName;
    var m := "_ZNn2E";
    BackToSign(m);
    ComponentStuckIff(m, 3);
    StuckInside(m);
    assert Round(m, 3, 3);
    at := ReturnMeansForever(m, [3, 3], n);
  }

  lemma StuckInside(m: string)
    requires m == "_ZNn2E" && Component(m, 3) == Stuck(3)
    ensures MangledName(m, 0) == Stuck(3)
  {
    hide Component, BareFunctionType, LocalName, UnscopedTemplateName, UnscopedName, SpecialName;
    assert Prefix(m, 3, false) == Stuck(3);
    assert NestedName(m, 2) == Stuck(3);
    assert Name(m, 2) == Stuck(3);
    assert Encoding(m, 2) == Stuck(3);
  }

  /** A nested name of two parts. */
  function TwoParts(first: T.Id, second: T.Id): T.Parts {
    T.Parts(T.NamePart(T.Named(first)), T.NoArgs, T.Parts(T.NamePart(T.Named(second)), T.NoArgs, T.NoParts))
  }

  lemma TwoPartsPrinted(first: T.Id, second: T.Id)
    ensures T.PrintParts(TwoParts(first, second)) == T.Source(first) + T.Source(second)
    ensures T.GoodParts(TwoParts(first, second), true)
  {
    hide T.Source;
    assert T.PrintPart(T.NamePart(T.Named(first))) == T.Source(first);
    assert T.PrintPart(T.NamePart(T.Named(second))) == T.Source(second);
    assert T.PrintArgs(T.NoArgs) == "" && T.PrintParts(T.NoParts) == "";
    var rest := T.Parts(T.NamePart(T.Named(second)), T.NoArgs, T.NoParts);
    assert T.PrintParts(rest) == T.Source(second) + "" + "";
    assert T.GoodParts(rest, false);
  }

  /** A component ending in n before the next length: the digits of the length are not met
      as the end of a sign. */
  lemma MainFooCovered()
    ensures MangledName("_ZN4main3fooEv", 0) == At(14) && Accepted("_ZN4main3fooEv")
  {
    hide MangledName, Accepted, T.PrintParts, T.GoodParts;
    var n := T.Nested(T.Quals(false, false, false), TwoParts("main", "foo"));
    var e := T.Object(n, T.Types(T.Builtin('v'), T.NoTypes));
    TwoPartsPrinted("main", "foo");
    hide TwoParts;
    assert T.PrintName(n) == "N" + "" + "4main3foo" + "E";
    assert "_Z" + T.PrintEntity(e) == "_ZN4main3fooEv" == "_Z" + T.PrintEntity(e) + N.PrintClones([]);
    N.PrintedIsAccepted(e, [], "");
  }

  /** A negative literal: its sign is not met as the start of a source name. */
  lemma NegativeLiteralCovered()
    ensures MangledName("_Z1fILin5EEvv", 0) == At(13) && Accepted("_Z1fILin5EEvv")
  {
    hide MangledName, Accepted;
    var args := T.Args(T.LiteralArg(T.Integer(T.Builtin('i'), true, 5)), T.NoArgs);
    var two := T.Types(T.Builtin('v'), T.Types(T.Builtin('v'), T.NoTypes));
    var e := T.Object(T.Instance(false, T.Named("f"), args), two);
    MinusFive(args);
    TwoVoids(two);
    InstancePrinted(args, two);
    hide T.PrintEntity, T.GoodEntity;
    N.PrintedIsAccepted(e, [], "");
    assert "_Z1fILin5EEvv" + N.PrintClones([]) == "_Z1fILin5EEvv";
  }

  lemma InstancePrinted(args: T.Args, ts: T.Types)
    requires args.Args? && T.PrintArgs(args) == "ILin5EE" && T.PrintTypes(ts) == "vv" && T.GoodArgs(args) && T.GoodTypes(ts)
    ensures var e := T.Object(T.Instance(false, T.Named("f"), args), ts);
            T.GoodEntity(e) && "_Z" + T.PrintEntity(e) == "_Z1fILin5EEvv"
  {
    hide T.PrintArgs, T.PrintTypes, T.GoodArgs, T.GoodTypes;
    var n := T.Instance(false, T.Named("f"), args);
    assert T.PrintName(n) == "" + T.Source("f") + "ILin5EE";
    assert T.Source("f") == "1f";
    assert T.GoodUnqualified(T.Named("f")) && T.GoodName(n);
    assert "_Z" + T.PrintEntity(T.Object(n, ts)) == "_Z" + ("1fILin5EE" + "vv");
  }

  lemma MinusFive(args: T.Args)
    requires args == T.Args(T.LiteralArg(T.Integer(T.Builtin('i'), true, 5)), T.NoArgs)
    ensures T.PrintArgs(args) == "ILin5EE" && T.GoodArgs(args)
  {
    assert T.PrintArg(args.head) == "Lin5E" && T.PrintList(args.tail) == "";
  }

  lemma TwoVoids(ts: T.Types)
    requires ts == T.Types(T.Builtin('v'), T.Types(T.Builtin('v'), T.NoTypes))
    ensures T.PrintTypes(ts) == "vv" && T.GoodTypes(ts)
  {
    assert T.PrintTypes(ts.tail) == "v" && T.GoodTypes(ts.tail);
  }

  /** A negative length that still moves forward is accepted, although the grammar has none:
      three steps back from the end of n003, at its zeros, a length of three starts. */
  lemma NegativeLengthAccepted()
    ensures NumberValue("_ZNn003abcE", 3) == -3
    ensures MangledName("_ZNn003abcE", 0) == At(11) && Accepted("_ZNn003abcE")
  {
    hide Component, TemplateArgs, Types, Prefix, Name, Encoding, MangledName, Accepted, NumberValue;
    var m := "_ZNn003abcE";
    ThreeBack(m);
    S.NoComponent(m, 10);
    S.NoTemplateArgs(m, 10);
    S.PrefixEnds(m, 10, true);
    S.PrefixPart(m, 4, 10, true);
    S.PrefixPart(m, 3, 4, false);
    assert CVQualifiers(m, 3).Fail?;
    S.NestedIsName(m, 2, 3, 10);
    S.NothingOver(m, 11);
    S.ObjectIsEntity(m, 2, 11, 11);
    WholeName(m);
  }

  lemma WholeName(m: string)
    requires |m| >= 2 && m[..2] == "_Z" && Encoding(m, 2) == At(|m|)
    ensures MangledName(m, 0) == At(|m|) && Accepted(m)
  {
    hide Encoding;
    assert m[0] == m[..2][0] && m[1] == m[..2][1];
  }

  lemma ThreeBack(m: string)
    requires m == "_ZNn003abcE"
    ensures NumberValue(m, 3) == -3 && Component(m, 3) == At(4) && Component(m, 4) == At(10)
  {
    hide TemplateParam, Substitution, OperatorName, CtorDtorName, LocalSourceName;
    Digits(m);
    ComponentIsSource(m, 3);
    ComponentIsSource(m, 4);
  }

  lemma Digits(m: string)
    requires m == "_ZNn003abcE"
    ensures Number(m, 3) == At(7) && NumberValue(m, 3) == -3 && Number(m, 4) == At(7) && NumberValue(m, 4) == 3
  {
    assert Span(m, 7, IsDigit) == 7;
    assert Span(m, 4, IsDigit) == 7 by { assert Span(m, 6, IsDigit) == 7; assert Span(m, 5, IsDigit) == 7; }
    assert m[4..7] == "003" && "003"[..2] == "00" && "00"[..1] == "0" && "0"[..0] == "";
    assert Decimal("0") == 0 && Decimal("00") == 0 && Decimal("003") == 3;
  }

  lemma ComponentIsSource(m: string, i: nat)
    requires i < |m| && (IsDigit(m[i]) || (i + 1 < |m| && m[i] == 'n' && IsDigit(m[i + 1])))
    ensures Component(m, i) == SourceName(m, i) && UnscopedName(m, i) == SourceName(m, i)
  {
    hide TemplateParam, Substitution, OperatorName, CtorDtorName, LocalSourceName, SourceName;
    NothingElseStarts(m, i);
    assert UnqualifiedName(m, i) == SourceName(m, i).Or(LocalSourceName(m, i));
    LocalNeedsL(m, i);
    assert UnqualifiedName(m, i) == SourceName(m, i);
    assert UnscopedName(m, i) == SourceName(m, i);
  }

  lemma LocalNeedsL(m: string, i: nat)
    requires i < |m| && m[i] != 'L'
    ensures LocalSourceName(m, i).Fail?
  {
  }
}
