/** The demangler's parsers over one mutable state: a cursor into the mangled name, an output
    buffer, and flags that say whether and how to write. */
module Demangle {
  import opened Mangling

  /** The fields a parser copies before it tries something and restores when that fails. The
      bytes of the buffer are not among them. */
  datatype Saved = Saved(cur: nat, outCur: nat, prevName: nat, prevNameLength: int, nestLevel: int,
                         append: bool, overflowed: bool)

  /** What is appended: a piece of text, or what starts at a place of the output buffer. */
  datatype Text = Literal(text: string) | Output(at: nat)

  class State {
    const mangled: string
    const out: array<char>
    var mangledCur: nat
    var outCur: nat
    var prevName: nat
    var prevNameLength: int
    var nestLevel: int
    var append: bool
    var overflowed: bool

    ghost predicate Valid()
      reads this
    {
      && '\0' !in mangled
      && mangledCur <= |mangled| && outCur <= out.Length && (out.Length > 0 ==> outCur < out.Length)
      && -32768 <= nestLevel <= 32767
    }

    function Now(): Saved
      reads this
    {
      Saved(mangledCur, outCur, prevName, prevNameLength, nestLevel, append, overflowed)
    }

    /** No output since `then` and `was`. */
    ghost predicate Silent(before: Saved, was: seq<char>)
      reads this, out
    {
      && outCur == before.outCur && prevName == before.prevName && prevNameLength == before.prevNameLength
      && overflowed == before.overflowed && out[..] == was
    }

    /** What every parser promises where it does not get stuck: it succeeds exactly where the
        grammar parses, and then restores the flags; a failure leaves the state unchanged;
        and it writes nothing when it is not to append. */
    ghost predicate After(before: Saved, was: seq<char>, ok: bool, parse: Parse)
      reads this, out
    {
      && ok == parse.At?
      && (if ok then mangledCur == parse.next && append == before.append && nestLevel == before.nestLevel
          else Now() == before)
      && (!before.append ==> Silent(before, was))
    }

    constructor (mangled: string, out: array<char>)
      requires '\0' !in mangled
      ensures Valid() && this.mangled == mangled && this.out == out && append && mangledCur == 0
      ensures nestLevel == -1 && !overflowed && outCur == 0
    {
      this.mangled, this.out := mangled, out;
      mangledCur, outCur, prevName, prevNameLength := 0, 0, 0, -1;
      nestLevel, append, overflowed := -1, true, false;
    }

    method Restore(copy: Saved)
      requires Valid() && copy.cur <= |mangled| && copy.outCur <= out.Length
      requires (out.Length > 0 ==> copy.outCur < out.Length) && -32768 <= copy.nestLevel <= 32767
      modifies this
      ensures Valid() && Now() == copy
    {
      mangledCur, outCur := copy.cur, copy.outCur;
      prevName, prevNameLength := copy.prevName, copy.prevNameLength;
      nestLevel, append, overflowed := copy.nestLevel, copy.append, copy.overflowed;
    }

    /** The `k`th character from the cursor. */
    function Peek(k: nat): char
      reads this
    {
      if mangledCur + k < |mangled| then mangled[mangledCur + k] else '\0'
    }

    // tokens

    method ParseOneCharToken(token: char) returns (ok: bool)
      requires Valid() && token != '\0'
      modifies this`mangledCur
      ensures Valid() && ok == Token(mangled, old(mangledCur), token).At?
      ensures mangledCur == Token(mangled, old(mangledCur), token).OrAt(old(mangledCur))
    {
      if Peek(0) == token {
        mangledCur := mangledCur + 1;
        return true;
      }
      return false;
    }

    method ParseTwoCharToken(token: string) returns (ok: bool)
      requires Valid() && |token| == 2 && '\0' !in token
      modifies this`mangledCur
      ensures Valid() && ok == Two(mangled, old(mangledCur), token).At?
      ensures mangledCur == Two(mangled, old(mangledCur), token).OrAt(old(mangledCur))
    {
      assert token[0] in token && token[1] in token;
      if Peek(0) == token[0] && Peek(1) == token[1] {
        mangledCur := mangledCur + 2;
        return true;
      }
      return false;
    }

    method ParseCharClass(chars: string) returns (ok: bool)
      requires Valid() && '\0' !in chars
      modifies this`mangledCur
      ensures Valid() && ok == Class(mangled, old(mangledCur), chars).At?
      ensures mangledCur == Class(mangled, old(mangledCur), chars).OrAt(old(mangledCur))
    {
      for p := 0 to |chars|
        invariant Valid() && mangledCur == old(mangledCur)
        invariant Peek(0) !in chars[..p]
      {
        if Peek(0) == chars[p] {
          mangledCur := mangledCur + 1;
          return true;
        }
      }
      return false;
    }

    method AtLeastNumCharsRemaining(n: int) returns (yes: bool)
      requires Valid()
      ensures yes == (mangledCur + n <= |mangled|)
    {
      var i := 0;
      while i < n
        invariant 0 <= i && (i <= n || n < 0) && mangledCur + i <= |mangled|
      {
        if Peek(i) == '\0' { return false; }
        i := i + 1;
      }
      return true;
    }

    // output

    /** A read past the end of the buffer, after an overflow, gives any character. */
    method CharOf(text: Text, i: nat) returns (c: char)
      requires text.Literal? ==> i < |text.text|
      ensures text.Literal? ==> c == text.text[i]
    {
      match text
      case Literal(s) => c := s[i];
      case Output(at) => if at + i < out.Length { c := out[at + i]; } else { c := *; }
    }

    /** What fits is written and ended with a NUL; an overflow is remembered. */
    method Append(text: Text, length: nat)
      requires Valid() && length > 0 && (text.Literal? ==> length <= |text.text|)
      modifies this`outCur, this`overflowed, out
      ensures Valid() && old(outCur) <= outCur && out[..old(outCur)] == old(out[..outCur])
      ensures overflowed == (old(overflowed) || old(outCur) + length >= out.Length)
      ensures old(outCur) + length < out.Length ==> outCur == old(outCur) + length
      ensures text.Literal? && !overflowed ==>
                out[old(outCur)..outCur] == text.text[..length] && out[outCur] == '\0'
    {
      var i := 0;
      while i < length
        invariant 0 <= i <= length && Valid() && outCur == old(outCur) + i
        invariant overflowed == old(overflowed) && (i > 0 ==> outCur < out.Length)
        invariant out[..old(outCur)] == old(out[..outCur])
        invariant text.Literal? ==> out[old(outCur)..outCur] == text.text[..i]
      {
        if outCur + 1 < out.Length {
          var c := CharOf(text, i);
          out[outCur] := c;
          outCur := outCur + 1;
        } else {
          overflowed := true;
          break;
        }
        i := i + 1;
      }
      if !overflowed {
        out[outCur] := '\0';
      }
    }

    /** What is written for a literal: a space keeps two '<' apart. */
    ghost function Spaced(text: string): (s: string)
      reads this, out
      requires Valid()
      ensures |text| <= |s| <= |text| + 1 && s[|s| - |text|..] == text
    {
      if text != "" && text[0] == '<' && 0 < outCur && out[outCur - 1] == '<' then " " + text else text
    }

    method MaybeAppendWithLength(text: Text, length: int)
      requires Valid() && (text.Literal? ==> length <= |text.text|)
      modifies this`outCur, this`overflowed, this`prevName, this`prevNameLength, out
      ensures Valid() && out[..old(outCur)] == old(out[..outCur])
      ensures !append || length <= 0 ==> Silent(old(Now()), old(out[..]))
      ensures append && length > 0 && text.Literal? ==>
                var s := old(Spaced(text.text[..length]));
                && overflowed == (old(overflowed) || old(outCur) + |s| >= out.Length)
                && (!overflowed ==> outCur == old(outCur) + |s| && out[old(outCur)..outCur] == s && out[outCur] == '\0')
                && (if IsAlpha(text.text[0]) || text.text[0] == '_' then prevName == old(outCur) && prevNameLength == length
                    else prevName == old(prevName) && prevNameLength == old(prevNameLength))
    {
      if append && length > 0 {
        var first := CharOf(text, 0);
        if first == '<' && 0 < outCur && out[outCur - 1] == '<' {
          Append(Literal(" "), 1);
        }
        if IsAlpha(first) || first == '_' {
          prevName, prevNameLength := outCur, length;
        }
        ghost var mid, spaced := outCur, out[..outCur];
        Append(text, length);
        assert out[..mid] == spaced;
        assert out[..old(outCur)] == spaced[..old(outCur)];
        assert out[old(outCur)..mid] == spaced[old(outCur)..];
        assert !overflowed ==> out[old(outCur)..outCur] == out[old(outCur)..mid] + out[mid..outCur];
      }
    }

    method MaybeAppend(text: string)
      requires Valid()
      modifies this`outCur, this`overflowed, this`prevName, this`prevNameLength, out
      ensures Valid() && (!append ==> Silent(old(Now()), old(out[..])))
    {
      if append {
        MaybeAppendWithLength(Literal(text), |text|);
      }
    }

    /** A short wraps around. */
    method MaybeIncreaseNestLevel()
      requires Valid()
      modifies this`nestLevel
      ensures Valid()
      ensures nestLevel == if old(nestLevel) <= -1 then old(nestLevel)
                           else if old(nestLevel) == 32767 then -32768 else old(nestLevel) + 1
    {
      if nestLevel > -1 {
        nestLevel := if nestLevel == 32767 then -32768 else nestLevel + 1;
      }
    }

    method MaybeAppendSeparator()
      requires Valid()
      modifies this`outCur, this`overflowed, this`prevName, this`prevNameLength, out
      ensures Valid() && (!append || nestLevel < 1 ==> Silent(old(Now()), old(out[..])))
    {
      if nestLevel >= 1 {
        MaybeAppend("::");
      }
    }

    method MaybeCancelLastSeparator()
      requires Valid()
      modifies this`outCur, out
      ensures Valid() && (!append || nestLevel < 1 ==> Silent(old(Now()), old(out[..])))
    {
      if nestLevel >= 1 && append && 2 <= outCur {
        outCur := outCur - 2;
        out[outCur] := '\0';
      }
    }

    // parsers without recursion

    /** The sign stays consumed when no digits follow. */
    method ParseNumber() returns (ok: bool, number: int)
      requires Valid()
      modifies this`mangledCur
      ensures Valid() && ok == Number(mangled, old(mangledCur)).At?
      ensures ok ==> mangledCur == Number(mangled, old(mangledCur)).next
      ensures ok ==> number == NumberValue(mangled, old(mangledCur))
      ensures !ok ==> mangledCur == DigitsStart(mangled, old(mangledCur))
    {
      var sign := 1;
      var negative := ParseOneCharToken('n');
      if negative { sign := -1; }
      var p := mangledCur;
      number := 0;
      while p < |mangled| && IsDigit(mangled[p])
        invariant mangledCur <= p <= |mangled| && number == Decimal(mangled[mangledCur..p])
        invariant Span(mangled, mangledCur, IsDigit) == Span(mangled, p, IsDigit)
      {
        assert mangled[mangledCur..p + 1][..p - mangledCur] == mangled[mangledCur..p];
        number := number * 10 + (mangled[p] as int - '0' as int);
        p := p + 1;
      }
      ok := p != mangledCur;
      mangledCur, number := p, number * sign;
    }

    method ParseFloatNumber() returns (ok: bool)
      requires Valid()
      modifies this`mangledCur
      ensures Valid() && ok == Some(mangled, old(mangledCur), IsHex).At?
      ensures mangledCur == Some(mangled, old(mangledCur), IsHex).OrAt(old(mangledCur))
    {
      var p := mangledCur;
      while p < |mangled| && IsHex(mangled[p])
        invariant mangledCur <= p <= |mangled|
        invariant Span(mangled, mangledCur, IsHex) == Span(mangled, p, IsHex)
      {
        p := p + 1;
      }
      ok := p != mangledCur;
      mangledCur := p;
    }

    method ParseSeqId() returns (ok: bool)
      requires Valid()
      modifies this`mangledCur
      ensures Valid() && ok == Some(mangled, old(mangledCur), IsSeq).At?
      ensures mangledCur == Some(mangled, old(mangledCur), IsSeq).OrAt(old(mangledCur))
    {
      var p := mangledCur;
      while p < |mangled| && IsSeq(mangled[p])
        invariant mangledCur <= p <= |mangled|
        invariant Span(mangled, mangledCur, IsSeq) == Span(mangled, p, IsSeq)
      {
        p := p + 1;
      }
      ok := p != mangledCur;
      mangledCur := p;
    }

    /** The cursor may move back over a negative length. */
    method ParseIdentifier(length: int) returns (ok: bool)
      requires Valid() && (length != -1 ==> 0 <= mangledCur + length)
      modifies this`mangledCur, this`outCur, this`overflowed, this`prevName, this`prevNameLength, out
      ensures Valid() && ok == (length != -1 && old(mangledCur) + length <= |mangled|)
      ensures mangledCur == if ok then old(mangledCur) + length else old(mangledCur)
      ensures !append || !ok ==> Silent(old(Now()), old(out[..]))
    {
      var enough := AtLeastNumCharsRemaining(length);
      if length == -1 || !enough { return false; }
      if length > 11 && "_GLOBAL__N_" <= mangled[mangledCur..] {
        MaybeAppend("(anonymous namespace)");
      } else {
        MaybeAppendWithLength(Literal(if length > 0 then mangled[mangledCur..mangledCur + length] else ""), length);
      }
      mangledCur := mangledCur + length;
      return true;
    }

    method ParseSourceName() returns (ok: bool)
      requires Valid() && !SourceName(mangled, mangledCur).Stuck?
      modifies this, out
      ensures Valid() && After(old(Now()), old(out[..]), ok, SourceName(mangled, old(mangledCur)))
      ensures ok == HasName(mangled, old(mangledCur))
      ensures ok ==> mangledCur == NameEnd(mangled, old(mangledCur))
    {
      var copy := Now();
      var length;
      ok, length := ParseNumber();
      if ok { ok := ParseIdentifier(length); }
      if !ok { Restore(copy); }
    }

    method ParseCVQualifiers() returns (ok: bool)
      requires Valid()
      modifies this, out
      ensures Valid() && After(old(Now()), old(out[..]), ok, CVQualifiers(mangled, old(mangledCur)))
    {
      var r := ParseOneCharToken('r');
      var v := ParseOneCharToken('V');
      var k := ParseOneCharToken('K');
      return r || v || k;
    }

    /** ParseNumber with nowhere to put the number. */
    method SkipNumber() returns (ok: bool)
      requires Valid()
      modifies this`mangledCur
      ensures Valid() && ok == Number(mangled, old(mangledCur)).At?
      ensures mangledCur == if ok then Number(mangled, old(mangledCur)).next else DigitsStart(mangled, old(mangledCur))
    {
      var number;
      ok, number := ParseNumber();
    }

    method ParseNVOffset() returns (ok: bool)
      requires Valid()
      modifies this`mangledCur
      ensures Valid() && ok == Number(mangled, old(mangledCur)).At?
      ensures mangledCur == if ok then Number(mangled, old(mangledCur)).next else DigitsStart(mangled, old(mangledCur))
    {
      ok := SkipNumber();
    }

    method ParseVOffset() returns (ok: bool)
      requires Valid()
      modifies this, out
      ensures Valid() && After(old(Now()), old(out[..]), ok, VOffset(mangled, old(mangledCur)))
    {
      var copy := Now();
      ok := SkipNumber();
      if ok { ok := ParseOneCharToken('_'); }
      if ok { ok := SkipNumber(); }
      if !ok { Restore(copy); }
    }

    method ParseCallOffset() returns (ok: bool)
      requires Valid()
      modifies this, out
      ensures Valid() && After(old(Now()), old(out[..]), ok, CallOffset(mangled, old(mangledCur)))
    {
      hide Number, VOffset;
      var copy := Now();
      ok := ParseOneCharToken('h');
      if ok { ok := ParseNVOffset(); }
      if ok { ok := ParseOneCharToken('_'); }
      if ok { return; }
      Restore(copy);
      ok := ParseOneCharToken('v');
      if ok { ok := ParseVOffset(); }
      if ok { ok := ParseOneCharToken('_'); }
      if !ok { Restore(copy); }
    }

    method ParseDiscriminator() returns (ok: bool)
      requires Valid()
      modifies this, out
      ensures Valid() && After(old(Now()), old(out[..]), ok, Discriminator(mangled, old(mangledCur)))
    {
      var copy := Now();
      ok := ParseOneCharToken('_');
      if ok { ok := SkipNumber(); }
      if !ok { Restore(copy); }
    }

    method ParseLocalSourceName() returns (ok: bool)
      requires Valid() && !LocalSourceName(mangled, mangledCur).Stuck?
      modifies this, out
      ensures Valid() && After(old(Now()), old(out[..]), ok, LocalSourceName(mangled, old(mangledCur)))
    {
      var copy := Now();
      ok := ParseOneCharToken('L');
      if ok { ok := ParseSourceName(); }
      if ok { var _ := ParseDiscriminator(); }
      if !ok { Restore(copy); }
    }

    method ParseCtorDtorName() returns (ok: bool)
      requires Valid()
      modifies this, out
      ensures Valid() && After(old(Now()), old(out[..]), ok, CtorDtorName(mangled, old(mangledCur)))
    {
      var copy := Now();
      ok := ParseOneCharToken('C');
      if ok { ok := ParseCharClass("123"); }
      if ok { MaybeAppendWithLength(Output(prevName), prevNameLength); }
      if ok { return; }
      Restore(copy);
      ok := ParseOneCharToken('D');
      if ok { ok := ParseCharClass("012"); }
      if ok {
        var name, length := prevName, prevNameLength;
        MaybeAppend("~");
        MaybeAppendWithLength(Output(name), length);
      }
      if !ok { Restore(copy); }
    }

    method ParseTemplateParam() returns (ok: bool)
      requires Valid()
      modifies this, out
      ensures Valid() && After(old(Now()), old(out[..]), ok, TemplateParam(mangled, old(mangledCur)))
    {
      ok := ParseTwoCharToken("T_");
      if ok { MaybeAppend("?"); }
      if ok { return; }
      var copy := Now();
      ok := ParseOneCharToken('T');
      if ok { ok := SkipNumber(); }
      if ok { ok := ParseOneCharToken('_'); }
      if ok { MaybeAppend("?"); }
      if !ok { Restore(copy); }
    }

    method ParseSubstitution() returns (ok: bool)
      requires Valid()
      modifies this, out
      ensures Valid() && After(old(Now()), old(out[..]), ok, Substitution(mangled, old(mangledCur)))
    {
      hide Two, Some, Class, Keys;
      ok := ParseTwoCharToken("S_");
      if ok { MaybeAppend("?"); }
      if ok { return; }
      var copy := Now();
      ok := ParseOneCharToken('S');
      if ok { ok := ParseSeqId(); }
      if ok { ok := ParseOneCharToken('_'); }
      if ok { MaybeAppend("?"); }
      if ok { return; }
      Restore(copy);
      ok := ParseOneCharToken('S');
      if ok { ok := ParseAbbreviation(); }
      if !ok { Restore(copy); }
    }

    method ParseBuiltinType() returns (ok: bool)
      requires Valid() && !BuiltinType(mangled, mangledCur).Stuck?
      modifies this, out
      ensures Valid() && After(old(Now()), old(out[..]), ok, BuiltinType(mangled, old(mangledCur)))
    {
      for p := 0 to |BUILTIN_TYPES|
        invariant Valid() && Now() == old(Now()) && out[..] == old(out[..])
        invariant Peek(0) !in Keys(BUILTIN_TYPES)[..p]
      {
        if Peek(0) == BUILTIN_TYPES[p].0 {
          MaybeAppend(BUILTIN_TYPES[p].1);
          mangledCur := mangledCur + 1;
          return true;
        }
      }
      var copy := Now();
      ok := ParseOneCharToken('u');
      if ok { ok := ParseSourceName(); }
      if !ok { Restore(copy); }
    }

    method ParseTemplateTemplateParam() returns (ok: bool)
      requires Valid()
      modifies this, out
      ensures Valid() && After(old(Now()), old(out[..]), ok, TemplateTemplateParam(mangled, old(mangledCur)))
    {
      ok := ParseTemplateParam();
      if !ok { ok := ParseSubstitution(); }
    }

    method ParseAbbreviation() returns (ok: bool)
      requires Valid()
      modifies this, out
      ensures Valid() && After(old(Now()), old(out[..]), ok, Class(mangled, old(mangledCur), Keys(SUBSTITUTIONS)))
    {
      for p := 0 to |SUBSTITUTIONS|
        invariant Valid() && Now() == old(Now()) && out[..] == old(out[..])
        invariant Peek(0) !in Keys(SUBSTITUTIONS)[..p]
      {
        if Peek(0) == SUBSTITUTIONS[p].0 {
          MaybeAppend("std");
          if SUBSTITUTIONS[p].1 != "" {
            MaybeAppend("::");
            MaybeAppend(SUBSTITUTIONS[p].1);
          }
          mangledCur := mangledCur + 1;
          return true;
        }
      }
      return false;
    }

    // the mutually recursive parsers

    method ParseMangledName() returns (ok: bool)
      requires Valid() && !MangledName(mangled, mangledCur).Stuck?
      modifies this, out
      ensures Valid() && ok == MangledName(mangled, old(mangledCur)).At?
      ensures ok ==> After(old(Now()), old(out[..]), ok, MangledName(mangled, old(mangledCur)))
      ensures !ok ==> Now() == old(Now()).(cur := Two(mangled, old(mangledCur), "_Z").OrAt(old(mangledCur)))
      ensures !old(append) ==> Silent(old(Now()), old(out[..]))
      decreases |mangled| - mangledCur, 0
    {
      ok := ParseTwoCharToken("_Z");
      if ok { ok := ParseEncoding(); }
    }

    method ParseEncoding() returns (ok: bool)
      requires Valid() && !Encoding(mangled, mangledCur).Stuck?
      modifies this, out
      ensures Valid() && After(old(Now()), old(out[..]), ok, Encoding(mangled, old(mangledCur)))
      decreases |mangled| - mangledCur, 5
    {
      var copy := Now();
      ok := ParseName();
      if ok { ok := ParseBareFunctionType(); }
      if ok { return; }
      Restore(copy);
      ok := ParseName();
      if !ok { ok := ParseSpecialName(); }
    }

    method ParseName() returns (ok: bool)
      requires Valid() && !Name(mangled, mangledCur).Stuck?
      modifies this, out
      ensures Valid() && After(old(Now()), old(out[..]), ok, Name(mangled, old(mangledCur)))
      decreases |mangled| - mangledCur, 4
    {
      ok := ParseNestedName();
      if !ok { ok := ParseLocalName(); }
      if ok { return; }
      var copy := Now();
      ok := ParseUnscopedTemplateName();
      if ok { ok := ParseTemplateArgs(); }
      if ok { return; }
      Restore(copy);
      ok := ParseUnscopedName();
    }

    method ParseUnscopedName() returns (ok: bool)
      requires Valid() && !UnscopedName(mangled, mangledCur).Stuck?
      modifies this, out
      ensures Valid() && After(old(Now()), old(out[..]), ok, UnscopedName(mangled, old(mangledCur)))
      decreases |mangled| - mangledCur, 2
    {
      ok := ParseUnqualifiedName();
      if ok { return; }
      var copy := Now();
      ok := ParseTwoCharToken("St");
      if ok { MaybeAppend("std::"); }
      if ok { ok := ParseUnqualifiedName(); }
      if !ok { Restore(copy); }
    }

    method ParseUnscopedTemplateName() returns (ok: bool)
      requires Valid() && !UnscopedTemplateName(mangled, mangledCur).Stuck?
      modifies this, out
      ensures Valid() && After(old(Now()), old(out[..]), ok, UnscopedTemplateName(mangled, old(mangledCur)))
      decreases |mangled| - mangledCur, 3
    {
      ok := ParseUnscopedName();
      if !ok { ok := ParseSubstitution(); }
    }

    method ParseNestedName() returns (ok: bool)
      requires Valid() && !NestedName(mangled, mangledCur).Stuck?
      modifies this, out
      ensures Valid() && After(old(Now()), old(out[..]), ok, NestedName(mangled, old(mangledCur)))
      decreases |mangled| - mangledCur, 0
    {
      hide CVQualifiers, Prefix;
      var copy := Now();
      ok := ParseOneCharToken('N');
      if ok { nestLevel := 0; }
      if ok { var _ := ParseCVQualifiers(); }
      if ok { ParsePrefix(); }
      if ok { nestLevel := copy.nestLevel; }
      if ok { ok := ParseOneCharToken('E'); }
      if !ok { Restore(copy); }
    }

    /** Always succeeds; the nest level rises with each component. */
    method ParsePrefix()
      requires Valid() && !Prefix(mangled, mangledCur, false).Stuck?
      modifies this, out
      ensures Valid() && append == old(append) && mangledCur == Prefix(mangled, old(mangledCur), false).next
      ensures !append ==> Silent(old(Now()), old(out[..]))
      ensures old(nestLevel) <= -1 ==> nestLevel == old(nestLevel)
      decreases |mangled| - mangledCur, 4
    {
      hide Component, TemplateArgs;
      var hasSomething := false;
      while true
        invariant Valid() && append == old(append) && old(mangledCur) <= mangledCur
        invariant Prefix(mangled, old(mangledCur), false) == Prefix(mangled, mangledCur, hasSomething)
        invariant !append ==> Silent(old(Now()), old(out[..]))
        invariant old(nestLevel) <= -1 ==> nestLevel == old(nestLevel)
        decreases |mangled| - mangledCur
      {
        MaybeAppendSeparator();
        var ok := ParseComponent();
        if ok {
          hasSomething := true;
          MaybeIncreaseNestLevel();
          continue;
        }
        MaybeCancelLastSeparator();
        if hasSomething { ok := ParseTemplateArgs(); }
        if ok {
          ParsePrefix();
        }
        return;
      }
    }

    method ParseComponent() returns (ok: bool)
      requires Valid() && !Component(mangled, mangledCur).Stuck?
      modifies this, out
      ensures Valid() && After(old(Now()), old(out[..]), ok, Component(mangled, old(mangledCur)))
      decreases |mangled| - mangledCur, 3
    {
      ok := ParseTemplateParam();
      if !ok { ok := ParseSubstitution(); }
      if !ok { ok := ParseUnscopedName(); }
    }

    method ParseUnqualifiedName() returns (ok: bool)
      requires Valid() && !UnqualifiedName(mangled, mangledCur).Stuck?
      modifies this, out
      ensures Valid() && After(old(Now()), old(out[..]), ok, UnqualifiedName(mangled, old(mangledCur)))
      decreases |mangled| - mangledCur, 1
    {
      ok := ParseOperatorName();
      if !ok { ok := ParseCtorDtorName(); }
      if !ok { ok := ParseSourceName(); }
      if !ok { ok := ParseLocalSourceName(); }
    }

    method ParseOperatorName() returns (ok: bool)
      requires Valid() && !OperatorName(mangled, mangledCur).Stuck?
      modifies this, out
      ensures Valid() && After(old(Now()), old(out[..]), ok, OperatorName(mangled, old(mangledCur)))
      decreases |mangled| - mangledCur, 0
    {
      hide Type, SourceName, IsOperator;
      var enough := AtLeastNumCharsRemaining(2);
      if !enough { return false; }
      var copy := Now();
      ok := ParseTwoCharToken("cv");
      if ok { MaybeAppend("operator "); }
      if ok { nestLevel := 0; }
      if ok { ok := ParseType(); }
      if ok { nestLevel := copy.nestLevel; }
      if ok { return; }
      Restore(copy);
      ok := ParseOneCharToken('v');
      if ok { ok := ParseCharClass("0123456789"); }
      if ok { ok := ParseSourceName(); }
      if ok { return; }
      Restore(copy);
      ok := ParseOperator();
    }

    method ParseOperator() returns (ok: bool)
      requires Valid() && mangledCur + 2 <= |mangled|
      modifies this, out
      ensures Valid()
      ensures After(old(Now()), old(out[..]), ok,
                    if IsOperator(mangled, old(mangledCur)) then At(old(mangledCur) + 2) else Fail)
    {
      if !(IsLower(Peek(0)) && IsAlpha(Peek(1))) { return false; }
      ok := ParseOneOf(OPERATORS);
    }

    /** `operator`, and a space before a name. */
    method AppendOperator(name: string)
      requires Valid()
      modifies this`outCur, this`overflowed, this`prevName, this`prevNameLength, out
      ensures Valid() && (!append ==> Silent(old(Now()), old(out[..])))
    {
      MaybeAppend("operator");
      if name != "" && IsLower(name[0]) {
        MaybeAppend(" ");
      }
      MaybeAppend(name);
    }

    /** The loop over the table of operators. */
    method ParseOneOf(table: seq<(string, string)>) returns (ok: bool)
      requires Valid() && mangledCur + 2 <= |mangled|
      modifies this, out
      ensures Valid()
      ensures After(old(Now()), old(out[..]), ok,
                    if exists k | 0 <= k < |table| :: table[k].0 == mangled[old(mangledCur)..old(mangledCur) + 2]
                    then At(old(mangledCur) + 2) else Fail)
    {
      for p := 0 to |table|
        invariant Valid() && Now() == old(Now()) && out[..] == old(out[..])
        invariant forall k | 0 <= k < p :: table[k].0 != mangled[mangledCur..mangledCur + 2]
      {
        if table[p].0 == mangled[mangledCur..mangledCur + 2] {
          AppendOperator(table[p].1);
          mangledCur := mangledCur + 2;
          return true;
        }
      }
      return false;
    }

    method ParseSpecialName() returns (ok: bool)
      requires Valid() && !SpecialName(mangled, mangledCur).Stuck?
      modifies this, out
      ensures Valid() && After(old(Now()), old(out[..]), ok, SpecialName(mangled, old(mangledCur)))
      decreases |mangled| - mangledCur, 2
    {
      ok := ParseStandardSpecialName();
      if !ok { ok := ParseGnuSpecialName(); }
    }

    method ParseCovariantThunk() returns (ok: bool)
      requires Valid() && !CovariantThunk(mangled, mangledCur).Stuck?
      modifies this, out
      ensures Valid() && After(old(Now()), old(out[..]), ok, CovariantThunk(mangled, old(mangledCur)))
      decreases |mangled| - mangledCur, 0
    {
      var copy := Now();
      ok := ParseTwoCharToken("Tc");
      if ok { ok := ParseCallOffset(); }
      if ok { ok := ParseCallOffset(); }
      if ok { ok := ParseEncoding(); }
      if !ok { Restore(copy); }
    }

    method ParseStandardSpecialName() returns (ok: bool)
      requires Valid() && !StandardSpecialName(mangled, mangledCur).Stuck?
      modifies this, out
      ensures Valid() && After(old(Now()), old(out[..]), ok, StandardSpecialName(mangled, old(mangledCur)))
      decreases |mangled| - mangledCur, 1
    {
      hide Type, Name, Encoding, CallOffset, CovariantThunk;
      var copy := Now();
      ok := ParseOneCharToken('T');
      if ok { ok := ParseCharClass("VTIS"); }
      if ok { ok := ParseType(); }
      if ok { return; }
      Restore(copy);
      ok := ParseCovariantThunk();
      if ok { return; }
      Restore(copy);
      ok := ParseTwoCharToken("GV");
      if ok { ok := ParseName(); }
      if ok { return; }
      Restore(copy);
      ok := ParseOneCharToken('T');
      if ok { ok := ParseCallOffset(); }
      if ok { ok := ParseEncoding(); }
      if !ok { Restore(copy); }
    }

    method ParseGnuSpecialName() returns (ok: bool)
      requires Valid() && !GnuSpecialName(mangled, mangledCur).Stuck?
      modifies this, out
      ensures Valid() && After(old(Now()), old(out[..]), ok, GnuSpecialName(mangled, old(mangledCur)))
      decreases |mangled| - mangledCur, 1
    {
      hide Type, Name, Encoding, CallOffset, ConstructionTable;
      ok := ParseConstructionTable();
      if ok { return; }
      var copy := Now();
      ok := ParseOneCharToken('T');
      if ok { ok := ParseCharClass("FJ"); }
      if ok { ok := ParseType(); }
      if ok { return; }
      Restore(copy);
      ok := ParseTwoCharToken("GR");
      if ok { ok := ParseName(); }
      if ok { return; }
      Restore(copy);
      ok := ParseTwoCharToken("GA");
      if ok { ok := ParseEncoding(); }
      if ok { return; }
      Restore(copy);
      ok := ParseOneCharToken('T');
      if ok { ok := ParseCharClass("hv"); }
      if ok { ok := ParseCallOffset(); }
      if ok { ok := ParseEncoding(); }
      if !ok { Restore(copy); }
    }

    method ParseConstructionTable() returns (ok: bool)
      requires Valid() && !ConstructionTable(mangled, mangledCur).Stuck?
      modifies this, out
      ensures Valid() && After(old(Now()), old(out[..]), ok, ConstructionTable(mangled, old(mangledCur)))
      decreases |mangled| - mangledCur, 0
    {
      hide Type, Number;
      var copy := Now();
      ok := ParseTwoCharToken("TC");
      if ok { ok := ParseType(); }
      if ok { ok := SkipNumber(); }
      if ok { ok := ParseOneCharToken('_'); }
      if ok { append := false; }
      if ok { ok := ParseType(); }
      if ok { append := copy.append; }
      if !ok { Restore(copy); }
    }

    method ParseType() returns (ok: bool)
      requires Valid() && !Type(mangled, mangledCur).Stuck?
      modifies this, out
      ensures Valid() && After(old(Now()), old(out[..]), ok, Type(mangled, old(mangledCur)))
      decreases |mangled| - mangledCur, 7
    {
      ok := ParseModifiedType();
      if !ok { ok := ParseWholeType(); }
      if !ok { ok := ParseTemplatedType(); }
    }

    method ParseModifiedType() returns (ok: bool)
      requires Valid() && !ModifiedType(mangled, mangledCur).Stuck?
      modifies this, out
      ensures Valid() && After(old(Now()), old(out[..]), ok, ModifiedType(mangled, old(mangledCur)))
      decreases |mangled| - mangledCur, 1
    {
      hide Type, CVQualifiers, PackOrDecltype, VendorType;
      var copy := Now();
      ok := ParseCVQualifiers();
      if ok { ok := ParseType(); }
      if ok { return; }
      Restore(copy);
      ok := ParseCharClass("OPRCG");
      if ok { ok := ParseType(); }
      if ok { return; }
      Restore(copy);
      ok := ParsePackOrDecltype();
      if ok { return; }
      Restore(copy);
      ok := ParseVendorType();
      if !ok { Restore(copy); }
    }

    method ParseVendorType() returns (ok: bool)
      requires Valid() && !VendorType(mangled, mangledCur).Stuck?
      modifies this, out
      ensures Valid() && After(old(Now()), old(out[..]), ok, VendorType(mangled, old(mangledCur)))
      decreases |mangled| - mangledCur, 0
    {
      var copy := Now();
      ok := ParseOneCharToken('U');
      if ok { ok := ParseSourceName(); }
      if ok { ok := ParseType(); }
      if !ok { Restore(copy); }
    }

    method ParsePackOrDecltype() returns (ok: bool)
      requires Valid() && !PackOrDecltype(mangled, mangledCur).Stuck?
      modifies this, out
      ensures Valid() && After(old(Now()), old(out[..]), ok, PackOrDecltype(mangled, old(mangledCur)))
      decreases |mangled| - mangledCur, 0
    {
      hide Type, Expression;
      var copy := Now();
      ok := ParseTwoCharToken("Dp");
      if ok { ok := ParseType(); }
      if ok { return; }
      Restore(copy);
      ok := ParseOneCharToken('D');
      if ok { ok := ParseCharClass("tT"); }
      if ok { ok := ParseExpression(); }
      if ok { ok := ParseOneCharToken('E'); }
      if !ok { Restore(copy); }
    }

    method ParseWholeType() returns (ok: bool)
      requires Valid() && !WholeType(mangled, mangledCur).Stuck?
      modifies this, out
      ensures Valid() && After(old(Now()), old(out[..]), ok, WholeType(mangled, old(mangledCur)))
      decreases |mangled| - mangledCur, 6
    {
      ok := ParseBuiltinType();
      if !ok { ok := ParseFunctionType(); }
      if !ok { ok := ParseClassEnumType(); }
      if !ok { ok := ParseArrayType(); }
      if !ok { ok := ParsePointerToMemberType(); }
      if !ok { ok := ParseSubstitution(); }
    }

    method ParseClassEnumType() returns (ok: bool)
      requires Valid() && !Name(mangled, mangledCur).Stuck?
      modifies this, out
      ensures Valid() && After(old(Now()), old(out[..]), ok, Name(mangled, old(mangledCur)))
      decreases |mangled| - mangledCur, 5
    {
      ok := ParseName();
    }

    method ParseTemplatedType() returns (ok: bool)
      requires Valid() && !TemplatedType(mangled, mangledCur).Stuck?
      modifies this, out
      ensures Valid() && After(old(Now()), old(out[..]), ok, TemplatedType(mangled, old(mangledCur)))
      decreases |mangled| - mangledCur, 0
    {
      var copy := Now();
      ok := ParseTemplateTemplateParam();
      if ok { ok := ParseTemplateArgs(); }
      if ok { return; }
      Restore(copy);
      ok := ParseTemplateParam();
    }

    method ParseFunctionType() returns (ok: bool)
      requires Valid() && !FunctionType(mangled, mangledCur).Stuck?
      modifies this, out
      ensures Valid() && After(old(Now()), old(out[..]), ok, FunctionType(mangled, old(mangledCur)))
      decreases |mangled| - mangledCur, 0
    {
      var copy := Now();
      ok := ParseOneCharToken('F');
      if ok { var _ := ParseOneCharToken('Y'); }
      if ok { ok := ParseBareFunctionType(); }
      if ok { ok := ParseOneCharToken('E'); }
      if !ok { Restore(copy); }
    }

    method ParseBareFunctionType() returns (ok: bool)
      requires Valid() && !BareFunctionType(mangled, mangledCur).Stuck?
      modifies this, out
      ensures Valid() && After(old(Now()), old(out[..]), ok, BareFunctionType(mangled, old(mangledCur)))
      decreases |mangled| - mangledCur, 9
    {
      var copy := Now();
      append := false;
      ok := OneOrMoreTypes();
      if ok {
        append := copy.append;
        MaybeAppend("()");
      } else {
        Restore(copy);
      }
    }

    method OneOrMoreTypes() returns (ok: bool)
      requires Valid() && !BareFunctionType(mangled, mangledCur).Stuck?
      modifies this, out
      ensures Valid() && After(old(Now()), old(out[..]), ok, BareFunctionType(mangled, old(mangledCur)))
      decreases |mangled| - mangledCur, 8
    {
      ok := ParseType();
      if ok {
        var more := true;
        while more
          invariant Valid() && append == old(append) && nestLevel == old(nestLevel) && old(mangledCur) < mangledCur
          invariant Types(mangled, old(mangledCur)) == Types(mangled, mangledCur)
          invariant !more ==> Type(mangled, mangledCur).Fail?
          invariant !append ==> Silent(old(Now()), old(out[..]))
          decreases more, |mangled| - mangledCur
        {
          more := ParseType();
        }
      }
    }

    /** OneOrMore and ZeroOrMore of template arguments. */
    method TemplateArgList()
      requires Valid() && !ArgList(mangled, mangledCur).Stuck?
      modifies this, out
      ensures Valid() && append == old(append) && nestLevel == old(nestLevel)
      ensures mangledCur == ArgList(mangled, old(mangledCur)).next
      ensures mangledCur == old(mangledCur) ==> Now() == old(Now())
      ensures !append ==> Silent(old(Now()), old(out[..]))
      decreases |mangled| - mangledCur, 9
    {
      var more := true;
      while more
        invariant Valid() && append == old(append) && nestLevel == old(nestLevel) && old(mangledCur) <= mangledCur
        invariant ArgList(mangled, old(mangledCur)) == ArgList(mangled, mangledCur)
        invariant !more ==> TemplateArg(mangled, mangledCur).Fail?
        invariant mangledCur == old(mangledCur) ==> Now() == old(Now())
        invariant !append ==> Silent(old(Now()), old(out[..]))
        decreases more, |mangled| - mangledCur
      {
        more := ParseTemplateArg();
      }
    }

    method ParseArrayType() returns (ok: bool)
      requires Valid() && !ArrayType(mangled, mangledCur).Stuck?
      modifies this, out
      ensures Valid() && After(old(Now()), old(out[..]), ok, ArrayType(mangled, old(mangledCur)))
      decreases |mangled| - mangledCur, 1
    {
      hide SizedArray, VariableArray;
      ok := ParseSizedArray();
      if !ok { ok := ParseVariableArray(); }
    }

    method ParseSizedArray() returns (ok: bool)
      requires Valid() && !SizedArray(mangled, mangledCur).Stuck?
      modifies this, out
      ensures Valid() && After(old(Now()), old(out[..]), ok, SizedArray(mangled, old(mangledCur)))
      decreases |mangled| - mangledCur, 0
    {
      hide Type, Number;
      var copy := Now();
      ok := ParseOneCharToken('A');
      if ok { ok := SkipNumber(); }
      if ok { ok := ParseOneCharToken('_'); }
      if ok { ok := ParseType(); }
      if !ok { Restore(copy); }
    }

    method ParseVariableArray() returns (ok: bool)
      requires Valid() && !VariableArray(mangled, mangledCur).Stuck?
      modifies this, out
      ensures Valid() && After(old(Now()), old(out[..]), ok, VariableArray(mangled, old(mangledCur)))
      decreases |mangled| - mangledCur, 0
    {
      hide Type, Expression;
      var copy := Now();
      ok := ParseOneCharToken('A');
      if ok { var _ := ParseExpression(); }
      if ok { ok := ParseOneCharToken('_'); }
      if ok { ok := ParseType(); }
      if !ok { Restore(copy); }
    }

    method ParsePointerToMemberType() returns (ok: bool)
      requires Valid() && !PointerToMemberType(mangled, mangledCur).Stuck?
      modifies this, out
      ensures Valid() && After(old(Now()), old(out[..]), ok, PointerToMemberType(mangled, old(mangledCur)))
      decreases |mangled| - mangledCur, 0
    {
      var copy := Now();
      ok := ParseOneCharToken('M');
      if ok { ok := ParseType(); }
      if ok { ok := ParseType(); }
      if !ok { Restore(copy); }
    }

    method ParseTemplateArgs() returns (ok: bool)
      requires Valid() && !TemplateArgs(mangled, mangledCur).Stuck?
      modifies this, out
      ensures Valid() && After(old(Now()), old(out[..]), ok, TemplateArgs(mangled, old(mangledCur)))
      decreases |mangled| - mangledCur, 0
    {
      var copy := Now();
      append := false;
      ok := ParseOneCharToken('I');
      if ok {
        var start := mangledCur;
        TemplateArgList();
        ok := mangledCur > start;
      }
      if ok { ok := ParseOneCharToken('E'); }
      if ok {
        append := copy.append;
        MaybeAppend("<>");
      } else {
        Restore(copy);
      }
    }

    method ParseTemplateArg() returns (ok: bool)
      requires Valid() && !TemplateArg(mangled, mangledCur).Stuck?
      modifies this, out
      ensures Valid() && After(old(Now()), old(out[..]), ok, TemplateArg(mangled, old(mangledCur)))
      decreases |mangled| - mangledCur, 8
    {
      hide ArgList, Type, ExprPrimary, Expression;
      var copy := Now();
      ok := ParseOneCharToken('I');
      if ok { TemplateArgList(); }
      if ok { ok := ParseOneCharToken('E'); }
      if ok { return; }
      Restore(copy);
      ok := ParseType();
      if !ok { ok := ParseExprPrimary(); }
      if ok { return; }
      Restore(copy);
      ok := ParseOneCharToken('X');
      if ok { ok := ParseExpression(); }
      if ok { ok := ParseOneCharToken('E'); }
      if !ok { Restore(copy); }
    }

    method ParseExpression() returns (ok: bool)
      requires Valid() && !Expression(mangled, mangledCur).Stuck?
      modifies this, out
      ensures Valid() && After(old(Now()), old(out[..]), ok, Expression(mangled, old(mangledCur)))
      decreases |mangled| - mangledCur, 2
    {
      ok := ParseTemplateParam();
      if !ok { ok := ParseExprPrimary(); }
      if !ok { ok := ParseOperatorExpression(); }
      if !ok { ok := ParseTypeExpression(); }
    }

    method ParseOperatorExpression() returns (ok: bool)
      requires Valid() && !OperatorExpression(mangled, mangledCur).Stuck?
      modifies this, out
      ensures Valid() && After(old(Now()), old(out[..]), ok, OperatorExpression(mangled, old(mangledCur)))
      decreases |mangled| - mangledCur, 1
    {
      hide OperatorName, Expression;
      var copy := Now();
      ok := ParseOperatorName();
      if ok { ok := ParseExpression(); }
      if ok { ok := ParseExpression(); }
      if ok { ok := ParseExpression(); }
      if ok { return; }
      Restore(copy);
      ok := ParseOperatorName();
      if ok { ok := ParseExpression(); }
      if ok { ok := ParseExpression(); }
      if ok { return; }
      Restore(copy);
      ok := ParseOperatorName();
      if ok { ok := ParseExpression(); }
      if !ok { Restore(copy); }
    }

    method ParseTypeExpression() returns (ok: bool)
      requires Valid() && !TypeExpression(mangled, mangledCur).Stuck?
      modifies this, out
      ensures Valid() && After(old(Now()), old(out[..]), ok, TypeExpression(mangled, old(mangledCur)))
      decreases |mangled| - mangledCur, 0
    {
      hide Type, UnqualifiedName, TemplateArgs;
      var copy := Now();
      ok := ParseTwoCharToken("st");
      if ok { ok := ParseType(); }
      if ok { return; }
      Restore(copy);
      ok := ParseTwoCharToken("sr");
      if ok { ok := ParseType(); }
      if ok { ok := ParseUnqualifiedName(); }
      if ok { ok := ParseTemplateArgs(); }
      if ok { return; }
      Restore(copy);
      ok := ParseTwoCharToken("sr");
      if ok { ok := ParseType(); }
      if ok { ok := ParseUnqualifiedName(); }
      if !ok { Restore(copy); }
    }

    method ParseExprPrimary() returns (ok: bool)
      requires Valid() && !ExprPrimary(mangled, mangledCur).Stuck?
      modifies this, out
      ensures Valid() && After(old(Now()), old(out[..]), ok, ExprPrimary(mangled, old(mangledCur)))
      decreases |mangled| - mangledCur, 1
    {
      ok := ParseIntegerLiteral();
      if !ok { ok := ParseFloatLiteral(); }
      if !ok { ok := ParseNameLiteral(); }
    }

    method ParseIntegerLiteral() returns (ok: bool)
      requires Valid() && !IntegerLiteral(mangled, mangledCur).Stuck?
      modifies this, out
      ensures Valid() && After(old(Now()), old(out[..]), ok, IntegerLiteral(mangled, old(mangledCur)))
      decreases |mangled| - mangledCur, 0
    {
      hide Type, Number;
      var copy := Now();
      ok := ParseOneCharToken('L');
      if ok { ok := ParseType(); }
      if ok { ok := SkipNumber(); }
      if ok { ok := ParseOneCharToken('E'); }
      if !ok { Restore(copy); }
    }

    method ParseFloatLiteral() returns (ok: bool)
      requires Valid() && !FloatLiteral(mangled, mangledCur).Stuck?
      modifies this, out
      ensures Valid() && After(old(Now()), old(out[..]), ok, FloatLiteral(mangled, old(mangledCur)))
      decreases |mangled| - mangledCur, 0
    {
      hide Type, Some;
      var copy := Now();
      ok := ParseOneCharToken('L');
      if ok { ok := ParseType(); }
      if ok { ok := ParseFloatNumber(); }
      if ok { ok := ParseOneCharToken('E'); }
      if !ok { Restore(copy); }
    }

    method ParseNameLiteral() returns (ok: bool)
      requires Valid() && !NameLiteral(mangled, mangledCur).Stuck?
      modifies this, out
      ensures Valid() && After(old(Now()), old(out[..]), ok, NameLiteral(mangled, old(mangledCur)))
      decreases |mangled| - mangledCur, 0
    {
      hide MangledName, Encoding;
      var copy := Now();
      ok := ParseOneCharToken('L');
      if ok { ok := ParseMangledName(); }
      if ok { ok := ParseOneCharToken('E'); }
      if ok { return; }
      Restore(copy);
      ok := ParseTwoCharToken("LZ");
      if ok { ok := ParseEncoding(); }
      if ok { ok := ParseOneCharToken('E'); }
      if !ok { Restore(copy); }
    }

    method ParseLocalName() returns (ok: bool)
      requires Valid() && !LocalName(mangled, mangledCur).Stuck?
      modifies this, out
      ensures Valid() && After(old(Now()), old(out[..]), ok, LocalName(mangled, old(mangledCur)))
      decreases |mangled| - mangledCur, 1
    {
      ok := ParseLocalEntity();
      if !ok { ok := ParseLocalString(); }
    }

    method ParseLocalEntity() returns (ok: bool)
      requires Valid() && !LocalEntity(mangled, mangledCur).Stuck?
      modifies this, out
      ensures Valid() && After(old(Now()), old(out[..]), ok, LocalEntity(mangled, old(mangledCur)))
      decreases |mangled| - mangledCur, 0
    {
      hide Encoding, Name, Discriminator;
      var copy := Now();
      ok := ParseOneCharToken('Z');
      if ok { ok := ParseEncoding(); }
      if ok { ok := ParseOneCharToken('E'); }
      if ok { MaybeAppend("::"); }
      if ok { ok := ParseName(); }
      if ok { var _ := ParseDiscriminator(); }
      if !ok { Restore(copy); }
    }

    method ParseLocalString() returns (ok: bool)
      requires Valid() && !LocalString(mangled, mangledCur).Stuck?
      modifies this, out
      ensures Valid() && After(old(Now()), old(out[..]), ok, LocalString(mangled, old(mangledCur)))
      decreases |mangled| - mangledCur, 0
    {
      var copy := Now();
      ok := ParseOneCharToken('Z');
      if ok { ok := ParseEncoding(); }
      if ok { ok := ParseTwoCharToken("Es"); }
      if ok { var _ := ParseDiscriminator(); }
      if !ok { Restore(copy); }
    }

    // the entry point

    /** IsFunctionCloneSuffix */
    method IsCloneSuffix(start: nat) returns (yes: bool)
      requires start <= |mangled|
      ensures yes == CloneSuffix(mangled, start)
    {
      var i := start;
      while i < |mangled|
        invariant start <= i <= |mangled| && CloneSuffix(mangled, start) == CloneSuffix(mangled, i)
        decreases |mangled| - i
      {
        var alphas := SkipPiece(i, IsAlpha);
        if alphas.Fail? { return false; }
        var digits := SkipPiece(alphas.next, IsDigit);
        if digits.Fail? { return false; }
        i := digits.next;
      }
      return true;
    }

    method SkipPiece(start: nat, kind: char -> bool) returns (end: Parse)
      requires start <= |mangled|
      ensures end == Piece(mangled, start, kind)
    {
      if start == |mangled| || mangled[start] != '.' || start + 1 == |mangled| || !kind(mangled[start + 1]) { return Fail; }
      var i := start + 2;
      while i < |mangled| && kind(mangled[i])
        invariant start + 2 <= i <= |mangled|
        invariant Span(mangled, start + 1, kind) == Span(mangled, i, kind)
      {
        i := i + 1;
      }
      return At(i);
    }

    /** A version suffix is written out, a clone suffix is dropped. */
    method ParseTopLevelMangledName() returns (ok: bool)
      requires Valid() && mangledCur == 0 && !MangledName(mangled, 0).Stuck?
      modifies this, out
      ensures Valid() && ok == Accepted(mangled)
    {
      ok := ParseMangledName();
      if ok && mangledCur < |mangled| {
        var clone := IsCloneSuffix(mangledCur);
        if clone { return true; }
        if Peek(0) == '@' {
          MaybeAppend(mangled[mangledCur..]);
          return true;
        }
        return false;
      }
    }
  }

  /** Demangle, on every name on which no source name is tried whose length does not move
      the cursor forward: whatever the size of the buffer, a name is rejected only because it
      is no mangled name or because the buffer overflowed. */
  method Demangle(mangled: string, out: array<char>) returns (ok: bool, overflowed: bool)
    requires '\0' !in mangled && !MangledName(mangled, 0).Stuck?
    modifies out
    ensures ok == (Accepted(mangled) && !overflowed)
  {
    var state := new State(mangled, out);
    ok := state.ParseTopLevelMangledName();
    overflowed := state.overflowed;
    ok := ok && !overflowed;
  }
}
