/** SafeFNMatch_, the glob matcher of --vmodule, and what it makes of '*' and '?'. */
module FnMatch {

  // what a pattern means

  /** One character of a pattern and the piece of the string that it stands for. */
  predicate Stands(c: char, piece: string) {
    if c == '*' then true else |piece| == 1 && (c == '?' || piece[0] == c)
  }

  ghost function Joined(pieces: seq<string>): string {
    if pieces == [] then "" else pieces[0] + Joined(pieces[1..])
  }

  /** The string falls into pieces, one for each character of the pattern. */
  ghost predicate Glob(pattern: string, str: string) {
    exists pieces: seq<string> :: Cuts(pattern, str, pieces)
  }

  ghost predicate Cuts(pattern: string, str: string, pieces: seq<string>) {
    |pieces| == |pattern| && Joined(pieces) == str && forall i | 0 <= i < |pattern| :: Stands(pattern[i], pieces[i])
  }

  /** The first character takes a prefix and the rest of the pattern the rest. */
  ghost predicate First(pattern: string, str: string, i: nat)
    requires pattern != "" && i <= |str|
  {
    Stands(pattern[0], str[..i]) && Glob(pattern[1..], str[i..])
  }

  lemma GlobEmpty(str: string)
    ensures Glob("", str) <==> str == ""
  {
    if str == "" { assert Cuts("", "", []); }
  }

  lemma GlobFirst(pattern: string, str: string)
    requires pattern != ""
    ensures Glob(pattern, str) <==> exists i: nat :: i <= |str| && First(pattern, str, i)
  {
    if Glob(pattern, str) {
      var pieces :| Cuts(pattern, str, pieces);
      var i := |pieces[0]|;
      assert str[..i] == pieces[0] && str[i..] == Joined(pieces[1..]);
      assert Cuts(pattern[1..], str[i..], pieces[1..]);
      assert First(pattern, str, i);
    }
    if i: nat :| i <= |str| && First(pattern, str, i) {
      var rest :| Cuts(pattern[1..], str[i..], rest);
      var pieces := [str[..i]] + rest;
      assert pieces[1..] == rest && Joined(pieces) == str[..i] + str[i..] == str;
      assert Cuts(pattern, str, pieces);
    }
  }

  /** A character that is no star takes one character. */
  lemma GlobPlain(pattern: string, str: string)
    requires pattern != "" && pattern[0] != '*'
    ensures Glob(pattern, str) <==>
              str != "" && (pattern[0] == '?' || str[0] == pattern[0]) && Glob(pattern[1..], str[1..])
  {
    GlobFirst(pattern, str);
    if str != "" && (pattern[0] == '?' || str[0] == pattern[0]) && Glob(pattern[1..], str[1..]) {
      assert First(pattern, str, 1);
    }
  }

  lemma GlobStar(pattern: string, str: string, i: nat)
    requires pattern != "" && pattern[0] == '*' && i <= |str| && Glob(pattern[1..], str[i..])
    ensures Glob(pattern, str)
  {
    GlobFirst(pattern, str);
    assert First(pattern, str, i);
  }

  predicate Stars(s: string) {
    forall c | c in s :: c == '*'
  }

  lemma StarsFirst(s: string)
    requires s != ""
    ensures Stars(s) <==> s[0] == '*' && Stars(s[1..])
  {
    if Stars(s) {
      assert s[0] in s;
      forall c | c in s[1..] ensures c == '*' {
        assert c in s;
      }
    } else if s[0] == '*' {
      var c :| c in s && c != '*';
      assert c in s[1..];
    }
  }

  lemma {:induction false} GlobNothing(pattern: string)
    ensures Glob(pattern, "") <==> Stars(pattern)
  {
    if pattern == "" {
      GlobEmpty("");
    } else {
      GlobNothing(pattern[1..]);
      StarsFirst(pattern);
      if pattern[0] == '*' {
        GlobFirst(pattern, "");
        assert ""[0..] == "";
        if Glob(pattern, "") {
          var i: nat :| i <= |""| && First(pattern, "", i);
          assert i == 0;
        }
        if Glob(pattern[1..], "") { GlobStar(pattern, "", 0); }
      } else {
        GlobPlain(pattern, "");
      }
    }
  }

  // what the function computes

  function Match(pattern: string, str: string): bool
    decreases |pattern|
  {
    if pattern == "" then str == ""
    else if str == "" then pattern == "*"
    else if pattern[0] == str[0] || pattern[0] == '?' then Match(pattern[1..], str[1..])
    else pattern[0] == '*' && (pattern == "*" || exists i | 0 <= i < |str| :: Match(pattern[1..], str[i..]))
  }

  /** SafeFNMatch_ */
  method SafeFNMatch(pattern: string, str: string) returns (matches: bool)
    ensures matches == Match(pattern, str)
    decreases |pattern|
  {
    var p, s := 0, 0;
    while true
      invariant p <= |pattern| && s <= |str|
      invariant Match(pattern, str) == Match(pattern[p..], str[s..])
      decreases |pattern| - p
    {
      if p == |pattern| && s == |str| { return true; }
      if p == |pattern| { return false; }
      if s == |str| { return p + 1 == |pattern| && pattern[p] == '*'; }
      ghost var rest, from := pattern[p..], str[s..];
      assert rest[1..] == pattern[p + 1..] && from[1..] == str[s + 1..];
      if pattern[p] == str[s] || pattern[p] == '?' {
        p := p + 1;
        s := s + 1;
        continue;
      }
      if pattern[p] == '*' {
        if p + 1 == |pattern| { return true; }
        ghost var i := 0;
        while true
          invariant s < |str| && 0 <= i < |from| && str[s..] == from[i..]
          invariant forall k | 0 <= k < i :: !Match(rest[1..], from[k..])
          decreases |str| - s
        {
          var found := SafeFNMatch(pattern[p + 1..], str[s..]);
          if found { return true; }
          s := s + 1;
          i := i + 1;
          if s == |str| { return false; }
        }
      }
      return false;
    }
  }

  lemma AnythingGoes(str: string)
    ensures Glob("*", str)
  {
    GlobEmpty("");
    assert "*"[1..] == "" && str[|str|..] == "";
    GlobStar("*", str, |str|);
  }

  /** A match is a glob match, whatever the strings. */
  lemma {:induction false} Sound(pattern: string, str: string)
    requires Match(pattern, str)
    ensures Glob(pattern, str)
    decreases |pattern|
  {
    if pattern == "" {
      GlobEmpty(str);
    } else if str == "" {
      GlobNothing(pattern);
    } else if pattern[0] == str[0] || pattern[0] == '?' {
      Sound(pattern[1..], str[1..]);
      if pattern[0] == '*' { GlobStar(pattern, str, 1); } else { GlobPlain(pattern, str); }
    } else if pattern == "*" {
      AnythingGoes(str);
    } else {
      var i :| 0 <= i < |str| && Match(pattern[1..], str[i..]);
      Sound(pattern[1..], str[i..]);
      GlobStar(pattern, str, i);
    }
  }

  // strings without a literal star

  predicate EndsInTwoStars(pattern: string) {
    |pattern| >= 2 && pattern[|pattern| - 2] == '*' && pattern[|pattern| - 1] == '*'
  }

  /** The pattern that the function matches on such strings: two or more stars at the end
      ask for at least one character. */
  function Meant(pattern: string): string {
    if pattern == "" then ""
    else if |pattern| >= 2 && Stars(pattern) then "?*"
    else [pattern[0]] + Meant(pattern[1..])
  }

  lemma NoStarTail(str: string, i: nat)
    requires i <= |str| && '*' !in str
    ensures '*' !in str[i..]
  {
  }

  lemma QuestionStar(str: string)
    ensures Glob("?*", str) <==> str != ""
  {
    GlobPlain("?*", str);
    if str != "" {
      assert "?*"[1..] == "*" && "*"[1..] == "";
      AnythingGoes(str[1..]);
    }
  }

  lemma {:induction false} StarsMatch(pattern: string, str: string)
    requires |pattern| >= 2 && Stars(pattern) && '*' !in str
    ensures Match(pattern, str) <==> str != ""
    decreases |pattern|
  {
    if str != "" {
      assert pattern[0] in pattern && str[0] in str && pattern[1] in pattern;
      assert str[0..] == str;
      if |pattern| == 2 {
        assert pattern[1..] == "*";
      } else {
        StarsFirst(pattern);
        StarsMatch(pattern[1..], str);
      }
      assert Match(pattern[1..], str[0..]);
    }
  }

  /** On a string without '*' the function decides glob matching for the meant pattern. */
  lemma {:induction false} MatchesMeant(pattern: string, str: string)
    requires '*' !in str
    ensures Match(pattern, str) <==> Glob(Meant(pattern), str)
    decreases |pattern|
  {
    var meant := Meant(pattern);
    if pattern == "" {
      GlobEmpty(str);
    } else if |pattern| >= 2 && Stars(pattern) {
      StarsMatch(pattern, str);
      QuestionStar(str);
    } else {
      assert meant[1..] == Meant(pattern[1..]);
      if pattern[0] == '*' {
        StarMeant(pattern, str);
      } else {
        GlobPlain(meant, str);
        if str != "" {
          assert str[0] in str;
          NoStarTail(str, 1);
          MatchesMeant(pattern[1..], str[1..]);
        }
      }
    }
  }

  lemma {:induction false} MeantStars(pattern: string)
    ensures Stars(Meant(pattern)) <==> pattern == "" || pattern == "*"
  {
    if pattern != "" && !(|pattern| >= 2 && Stars(pattern)) {
      MeantStars(pattern[1..]);
      StarsFirst(Meant(pattern));
      StarsFirst(pattern);
      assert Meant(pattern)[1..] == Meant(pattern[1..]);
      assert pattern == [pattern[0]] + pattern[1..];
    } else if pattern != "" {
      assert '?' in "?*";
    }
  }

  /** The star case: what is left of the string cannot be empty. */
  lemma {:induction false} StarMeant(pattern: string, str: string)
    requires '*' !in str && pattern != "" && pattern[0] == '*' && !(|pattern| >= 2 && Stars(pattern))
    ensures Match(pattern, str) <==> Glob(Meant(pattern), str)
    decreases |pattern|, 0
  {
    var rest, meant := pattern[1..], Meant(pattern);
    assert meant[1..] == Meant(rest) && pattern == ['*'] + rest;
    if pattern == "*" {
      AnythingGoes(str);
      assert str != "" ==> str[0] in str;
    } else if str == "" {
      GlobNothing(meant);
      MeantStars(pattern);
    } else {
      assert str[0] in str;
      StarsFirst(pattern);
      MeantStars(rest);
      GlobNothing(Meant(rest));
      GlobFirst(meant, str);
      forall i: nat | i < |str| ensures Match(rest, str[i..]) <==> First(meant, str, i) {
        NoStarTail(str, i);
        MatchesMeant(rest, str[i..]);
      }
      assert str[|str|..] == "";
    }
  }

  // when the function is complete

  lemma AllStarsEndInTwo(pattern: string)
    ensures |pattern| >= 2 && Stars(pattern) ==> EndsInTwoStars(pattern)
    ensures |pattern| == 2 && EndsInTwoStars(pattern) ==> Stars(pattern)
  {
    if |pattern| >= 2 && Stars(pattern) {
      assert pattern[|pattern| - 2] in pattern && pattern[|pattern| - 1] in pattern;
    }
  }

  lemma {:induction false} MeantIsPattern(pattern: string)
    requires !EndsInTwoStars(pattern)
    ensures Meant(pattern) == pattern
  {
    AllStarsEndInTwo(pattern);
    if pattern != "" { MeantIsPattern(pattern[1..]); }
  }

  /** The number of characters that a pattern asks for. */
  function Needs(pattern: string): nat {
    if pattern == "" then 0 else (if pattern[0] == '*' then 0 else 1) + Needs(pattern[1..])
  }

  lemma {:induction false} GlobNeeds(pattern: string, str: string)
    requires Glob(pattern, str)
    ensures |str| >= Needs(pattern)
    decreases |pattern|
  {
    if pattern != "" {
      GlobFirst(pattern, str);
      var i: nat :| i <= |str| && First(pattern, str, i);
      GlobNeeds(pattern[1..], str[i..]);
    }
  }

  lemma {:induction false} StarsNeedNothing(pattern: string)
    requires Stars(pattern)
    ensures Needs(pattern) == 0
  {
    if pattern != "" {
      StarsFirst(pattern);
      StarsNeedNothing(pattern[1..]);
    }
  }

  lemma {:induction false} MeantNeedsMore(pattern: string)
    requires EndsInTwoStars(pattern)
    ensures Needs(Meant(pattern)) == Needs(pattern) + 1
  {
    if Stars(pattern) {
      StarsNeedNothing(pattern);
      assert "?*"[1..] == "*" && "*"[1..] == "";
      assert Needs("*") == 0;
    } else {
      AllStarsEndInTwo(pattern);
      MeantNeedsMore(pattern[1..]);
      assert Meant(pattern)[1..] == Meant(pattern[1..]);
    }
  }

  /** The shortest string of the pattern. */
  function Shortest(pattern: string): (str: string)
    ensures |str| == Needs(pattern) && '*' !in str
  {
    if pattern == "" then ""
    else if pattern[0] == '*' then Shortest(pattern[1..])
    else [if pattern[0] == '?' then 'x' else pattern[0]] + Shortest(pattern[1..])
  }

  lemma {:induction false} ShortestMatches(pattern: string)
    ensures Glob(pattern, Shortest(pattern))
  {
    if pattern == "" {
      GlobEmpty("");
    } else {
      ShortestMatches(pattern[1..]);
      if pattern[0] == '*' {
        assert Shortest(pattern)[0..] == Shortest(pattern);
        GlobStar(pattern, Shortest(pattern), 0);
      } else {
        GlobPlain(pattern, Shortest(pattern));
      }
    }
  }

  ghost predicate Agrees(pattern: string, str: string) {
    Match(pattern, str) == Glob(pattern, str)
  }

  /** On strings without '*' exactly the patterns that end in two stars go wrong. */
  lemma CompleteOnPlainStringsIff(pattern: string)
    ensures (forall str | '*' !in str :: Agrees(pattern, str)) <==> !EndsInTwoStars(pattern)
  {
    if EndsInTwoStars(pattern) {
      var str := Shortest(pattern);
      ShortestMatches(pattern);
      MeantNeedsMore(pattern);
      MatchesMeant(pattern, str);
      if Glob(Meant(pattern), str) { GlobNeeds(Meant(pattern), str); }
      assert !Agrees(pattern, str);
    } else {
      MeantIsPattern(pattern);
      forall str | '*' !in str ensures Agrees(pattern, str) {
        MatchesMeant(pattern, str);
      }
    }
  }

  lemma {:induction false} PlainPattern(pattern: string, str: string)
    requires '*' !in pattern
    ensures Agrees(pattern, str)
    decreases |pattern|
  {
    if pattern == "" {
      GlobEmpty(str);
    } else {
      assert pattern[0] in pattern;
      GlobPlain(pattern, str);
      if str != "" { PlainPattern(pattern[1..], str[1..]); }
    }
  }

  /** The pattern read as a string, with one character more after its last star. */
  function Echo(pattern: string): string
    requires '*' in pattern
  {
    if '*' in pattern[1..] then [if pattern[0] == '?' then 'x' else pattern[0]] + Echo(pattern[1..])
    else "*x" + Shortest(pattern[1..])
  }

  /** A star in the pattern that meets one in the string stands for that star alone. */
  lemma {:induction false} EchoMissed(pattern: string)
    requires '*' in pattern
    ensures Glob(pattern, Echo(pattern)) && !Match(pattern, Echo(pattern))
  {
    var str, rest := Echo(pattern), pattern[1..];
    if '*' in rest {
      EchoMissed(rest);
      assert str[1..] == Echo(rest);
      if pattern[0] == '*' { GlobStar(pattern, str, 1); } else { GlobPlain(pattern, str); }
    } else {
      assert pattern[0] == '*';
      assert str[1..] == "x" + Shortest(rest) && str[2..] == Shortest(rest);
      ShortestMatches(rest);
      GlobStar(pattern, str, 2);
      NeedsAll(rest);
      TooLong(rest, str[1..]);
    }
  }

  lemma {:induction false} TooLong(pattern: string, str: string)
    requires '*' !in pattern && |str| > |pattern|
    ensures !Match(pattern, str)
    decreases |pattern|
  {
    if pattern != "" {
      assert pattern[0] in pattern;
      TooLong(pattern[1..], str[1..]);
    }
  }

  lemma {:induction false} NeedsAll(pattern: string)
    requires '*' !in pattern
    ensures Needs(pattern) == |pattern|
  {
    if pattern != "" {
      assert pattern[0] in pattern;
      NeedsAll(pattern[1..]);
    }
  }

  /** On all strings exactly the patterns without a star are matched as they should be. */
  lemma CompleteIff(pattern: string)
    ensures (forall str :: Agrees(pattern, str)) <==> '*' !in pattern
  {
    if '*' in pattern {
      EchoMissed(pattern);
      assert !Agrees(pattern, Echo(pattern));
    } else {
      forall str ensures Agrees(pattern, str) {
        PlainPattern(pattern, str);
      }
    }
  }
}
