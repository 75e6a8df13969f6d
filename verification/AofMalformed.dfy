/** Loading files that the server has not written: behind any log, what makes the process
    end and what is taken for a crash in the middle of a write. */
module AofMalformed {
  import opened AofText
  import opened AofLoad

  /** Behind a log the loader goes on with what follows. */
  lemma {:induction false} LogThen(cmds: seq<Command>, junk: string, size: nat, sv: Server,
                                   executed: seq<Command>, valid: nat, multi: bool)
    requires AllLoggable(cmds, sv) && |EncodeAll(cmds)| + |junk| <= size
    ensures LoadFrom(EncodeAll(cmds) + junk, size, sv, executed, valid, multi)
         == LoadFrom(junk, size, sv, executed + cmds, if sv.loadTruncated && cmds != [] then size - |junk| else valid,
                     MultiAfter(sv, multi, cmds))
    decreases |cmds|
  {
    hide Encode, LoadCommand, Loggable, LoadFrom;
    if cmds == [] {
      assert EncodeAll(cmds) + junk == junk && executed + cmds == executed;
    } else {
      var c, after := cmds[0], EncodeAll(cmds[1..]) + junk;
      assert EncodeAll(cmds) + junk == Encode(c) + after;
      OneRead(c, after, size, sv, executed, valid, multi);
      LogThen(cmds[1..], junk, size, sv, executed + [c], if sv.loadTruncated then size - |after| else valid,
              sv.inMulti(multi, c));
      assert executed + [c] + cmds[1..] == executed + cmds;
    }
  }

  /** The next command decides, wherever it stands. */
  lemma LoadAfterLog(cmds: seq<Command>, junk: string, sv: Server)
    requires AllLoggable(cmds, sv) && junk != ""
    ensures LoadCommand(junk).BadFormat? ==> Load(EncodeAll(cmds) + junk, sv) == Exit(FormatError)
    ensures LoadCommand(junk).Got? && !sv.known(LoadCommand(junk).cmd[0]) ==>
              Load(EncodeAll(cmds) + junk, sv) == Exit(UnknownCommand)
  {
    hide Encode, LoadCommand, Loggable;
    LogThen(cmds, junk, |EncodeAll(cmds) + junk|, sv, [], 0, false);
  }

  /** Anything that does not start a command is an error, for either value of
      aof-load-truncated: nothing is cut off. */
  lemma JunkExits(cmds: seq<Command>, junk: string, sv: Server)
    requires AllLoggable(cmds, sv) && junk != "" && junk[0] != '*'
    ensures Load(EncodeAll(cmds) + junk, sv) == Exit(FormatError)
  {
    LoadAfterLog(cmds, junk, sv);
    hide Load, EncodeAll;
  }

  /** A negative number or zero, as printf prints it. */
  function Printed(n: int): string
    requires n < 1
  {
    if n == 0 then "0" else "-" + Digits(-n)
  }

  lemma PrintedLine(n: int, more: string)
    requires n < 1 && -n < Pow10(20)
    ensures var l := "*" + Printed(n) + "\r\n"; Line(l + more, LINE) == l && Atoi(l[1..]) == n && l[1] != '\0'
  {
    var l := "*" + Printed(n) + "\r\n";
    if n == 0 {
      assert l == Header('*', 0) by { assert Digits(0) == "0"; }
      HeaderWhole('*', 0, more);
    } else {
      MinusLine(n, more);
    }
  }

  lemma MinusLine(n: int, more: string)
    requires n < 0 && -n < Pow10(20)
    ensures var l := "*" + ("-" + Digits(-n)) + "\r\n"; Line(l + more, LINE) == l && Atoi(l[1..]) == n && l[1] != '\0'
  {
    var l := "*" + ("-" + Digits(-n)) + "\r\n";
    hide Atoi, Pow10, Digits, Line, DigitsValue;
    HeaderChars('*', -n);
    DigitsAreDigits(-n);
    DigitsShort(-n, 20);
    LineWhole(l, more, LINE);
    assert l[1..] == "-" + (Digits(-n) + "\r\n") && l[1..][1..] == Digits(-n) + "\r\n";
    DigitsRoundTrip(-n, "\r\n");
    AtoiOfMinus(l[1..]);
  }

  lemma AtoiOfMinus(s: string)
    requires s != "" && s[0] == '-'
    ensures Atoi(s) == -(DigitsValue(s[1..], 0) as int)
  {
  }

  /** So is a header with a count below one. */
  lemma CountBelowOneExits(cmds: seq<Command>, n: int, more: string, sv: Server)
    requires AllLoggable(cmds, sv) && n < 1 && -n < Pow10(20)
    ensures Load(EncodeAll(cmds) + ("*" + Printed(n) + "\r\n" + more), sv) == Exit(FormatError)
  {
    hide Load, EncodeAll, Line, Atoi, Printed, LoadCommand, Pow10;
    var l := "*" + Printed(n) + "\r\n";
    assert "*" + Printed(n) + "\r\n" + more == l + more;
    PrintedLine(n, more);
    LoadCommandStep(l + more);
    LoadAfterLog(cmds, l + more, sv);
  }

  /** Arguments up to something that is not one. */
  lemma {:induction false} ArgsThen(args: seq<string>, bad: string, n: nat)
    requires Short20(args) && |args| <= n
    ensures var r, after := LoadArgs(EncodeArgs(args) + bad, n), LoadArgs(bad, n - |args|);
            r == if after.Args? then Args(args + after.args, after.rest) else after
    decreases |args|
  {
    hide Line, Atoi, Header, LoadArgs, Pow10;
    if args == [] {
      assert EncodeArgs(args) + bad == bad;
      var after := LoadArgs(bad, n);
      if after.Args? { assert [] + after.args == after.args; }
    } else {
      var a, more := args[0], EncodeArgs(args[1..]) + bad;
      var h, rest := Header('$', |a|), EncodeArgs(args) + bad;
      assert rest == h + (a + "\r\n" + more);
      HeaderWhole('$', |a|, a + "\r\n" + more);
      HeaderChars('$', |a|);
      LoadArgsStep(rest, n);
      BodyParts(h, a, more);
      ArgsThen(args[1..], bad, n - 1);
      var after := LoadArgs(bad, n - |args|);
      if after.Args? { assert [a] + (args[1..] + after.args) == args + after.args; }
    }
  }

  /** So is an argument that is announced but does not start with its length. */
  lemma NoArgumentExits(cmds: seq<Command>, n: nat, args: seq<string>, bad: string, sv: Server)
    requires AllLoggable(cmds, sv) && |args| < n < Pow10(20) && Short20(args) && bad != "" && bad[0] != '$'
    ensures Load(EncodeAll(cmds) + (Header('*', n) + EncodeArgs(args) + bad), sv) == Exit(FormatError)
  {
    hide Load, EncodeAll, Atoi, Header, LoadCommand, LoadArgs, Pow10;
    var h, body := Header('*', n), EncodeArgs(args) + bad;
    assert h + EncodeArgs(args) + bad == h + body;
    HeaderChars('*', n);
    HeaderWhole('*', n, body);
    LoadCommandStep(h + body);
    ArgsThen(args, bad, n);
    LoadArgsStep(bad, n - |args|);
    assert (h + body)[|h|..] == body;
    LoadAfterLog(cmds, h + body, sv);
  }

  /** A whole command with a name that the server does not know ends the process, too. */
  lemma UnknownCommandExits(cmds: seq<Command>, cmd: Command, more: string, sv: Server)
    requires AllLoggable(cmds, sv) && 1 <= |cmd| < Pow10(20) && Short20(cmd) && !sv.known(cmd[0])
    ensures Load(EncodeAll(cmds) + (Encode(cmd) + more), sv) == Exit(UnknownCommand)
  {
    hide Load, EncodeAll, Loggable, LoadCommand, Pow10;
    var anything := sv.(known := _ => true);
    assert Loggable(cmd, anything) by { ShortIsLoggable(cmd, anything); }
    CommandReadBack(cmd, anything, more);
    LoadAfterLog(cmds, Encode(cmd) + more, sv);
  }

  lemma ShortIsLoggable(cmd: Command, sv: Server)
    requires 1 <= |cmd| < Pow10(20) && Short20(cmd) && sv.known(cmd[0])
    ensures Loggable(cmd, sv)
  {
    hide Pow10;
  }

  // ------------------------------------------------------- what a file means, whatever is in it

  /** `rest` starts with the argument `a`: a line with its length, its bytes and two more. */
  ghost predicate Bulk(rest: string, a: string, after: string) {
    var line := Line(rest, LINE);
    && line != "" && line[0] == '$' && Atoi(line[1..]) == |a|
    && exists end :: |end| == 2 && rest == line + a + end + after
  }

  ghost predicate Bulks(rest: string, args: seq<string>, after: string)
    decreases |args|
  {
    if args == [] then after == rest
    else exists mid :: Bulk(rest, args[0], mid) && Bulks(mid, args[1..], after)
  }

  /** `line` announces `n` arguments. */
  ghost predicate Announces(line: string, n: int) {
    |line| > 1 && line[0] == '*' && line[1] != '\0' && Atoi(line[1..]) == n && n >= 1
  }

  /** `rest` starts with the whole of the command. */
  ghost predicate Text(rest: string, cmd: Command, after: string) {
    var line := Line(rest, LINE);
    Announces(line, |cmd|) && Bulks(rest[|line|..], cmd, after)
  }

  /** `rest` starts with the commands, all of which the server knows. */
  ghost predicate Log(rest: string, cmds: seq<Command>, after: string, sv: Server)
    decreases |cmds|
  {
    if cmds == [] then after == rest
    else cmds[0] != [] && sv.known(cmds[0][0]) &&
         exists mid :: Text(rest, cmds[0], mid) && Log(mid, cmds[1..], after, sv)
  }

  /** The beginning of an argument, with bytes missing. */
  ghost predicate CutArgument(rest: string) {
    var line := Line(rest, LINE);
    rest == "" || (rest[0] == '$' && Atoi(line[1..]) >= 0 && |rest| < |line| + Atoi(line[1..]) + 2)
  }

  /** The beginning of a command: its mark alone, or its header and fewer arguments than
      announced, the last one perhaps with bytes missing. */
  ghost predicate CutCommand(rest: string) {
    var line := Line(rest, LINE);
    && rest != "" && rest[0] == '*'
    && (if |line| == 1 || line[1] == '\0' then HitsEnd(line, LINE)
        else exists args, last :: Announces(line, Atoi(line[1..])) && |args| < Atoi(line[1..])
                                  && Bulks(rest[|line|..], args, last) && CutArgument(last))
  }

  /** Neither a command nor the beginning of one. */
  ghost predicate Wrong(rest: string) {
    var line := Line(rest, LINE);
    && rest != ""
    && (rest[0] != '*' || Atoi(line[1..]) < 1
        || exists args, bad :: |args| < Atoi(line[1..]) && Bulks(rest[|line|..], args, bad)
             && bad != "" && (bad[0] != '$' || Atoi(Line(bad, LINE)[1..]) < 0))
  }

  lemma {:induction false} ArgsMean(rest: string, n: nat) returns (args: seq<string>, last: string)
    ensures Bulks(rest, args, last) && |args| <= n
    ensures match LoadArgs(rest, n)
            case Args(all, after) => all == args && after == last && |args| == n
            case CutOff => |args| < n && CutArgument(last)
            case Malformed => |args| < n && last != "" && (last[0] != '$' || Atoi(Line(last, LINE)[1..]) < 0)
    decreases n
  {
    hide Line, Atoi, LoadArgs;
    LoadArgsStep(rest, n);
    args, last := [], rest;
    if n == 0 { return; }
    var line := Line(rest, LINE);
    LineNext(rest, LINE);
    if line == "" || line[0] != '$' || Atoi(line[1..]) < 0 { return; }
    var len, body := Atoi(line[1..]), rest[|line|..];
    if |body| < len + 2 { return; }
    args, last := ArgsMean(body[len + 2..], n - 1);
    BulkStarts(rest, line, body[..len], body[len..len + 2], body[len + 2..]);
    var mid := body[len + 2..];
    assert ([body[..len]] + args)[1..] == args;
    args := [body[..len]] + args;
  }

  lemma BulkStarts(rest: string, line: string, a: string, end: string, after: string)
    requires line == Line(rest, LINE) != "" && line[0] == '$' && Atoi(line[1..]) == |a| && |end| == 2
    requires rest[|line|..] == a + end + after
    ensures Bulk(rest, a, after)
  {
    hide Line, Atoi;
    assert rest == line + a + end + after;
  }

  lemma CommandMeans(rest: string)
    ensures match LoadCommand(rest)
            case NoMore => rest == ""
            case Got(cmd, after) => Text(rest, cmd, after)
            case ShortRead(eof) => rest != "" && if eof then CutCommand(rest) else |rest| > 1 && rest[0] == '*' && rest[1] == '\0'
            case BadFormat => Wrong(rest)
  {
    hide Line, Atoi, LoadArgs, LoadCommand, Bulks, CutArgument, HitsEnd;
    LoadCommandStep(rest);
    LineNext(rest, LINE);
    var line := Line(rest, LINE);
    if line == "" || line[0] != '*' { return; }
    if |line| == 1 || line[1] == '\0' {
      if |line| == 1 { AloneHitsEnd(rest); }
      return;
    }
    if Atoi(line[1..]) < 1 { return; }
    var args, last := ArgsMean(rest[|line|..], Atoi(line[1..]));
  }

  lemma AloneHitsEnd(rest: string)
    requires rest != "" && rest[0] == '*' && |Line(rest, LINE)| == 1
    ensures HitsEnd(Line(rest, LINE), LINE)
  {
    LineNext(rest, LINE);
    LineNext(rest[1..], LINE - 1);
  }

  /** How every load ends, and on which files. The commands executed are the ones the file
      starts with. The file is cut back, or the load is given up as truncated, only where
      the file ends inside a command, or behind one with a MULTI open. */
  lemma {:induction false} LoadFromMeans(rest: string, size: nat, sv: Server, executed: seq<Command>, valid: nat, multi: bool)
    returns (cmds: seq<Command>, left: string)
    requires |rest| <= size
    ensures |left| <= |rest| && Log(rest, cmds, left, sv)
    ensures var open := MultiAfter(sv, multi, cmds);
            var out := if left == "" then open else CutCommand(left);
            match LoadFrom(rest, size, sv, executed, valid, multi)
            case EmptyFile => false
            case Loaded(all, upTo, cut) =>
              && all == executed + cmds && upTo == (if sv.loadTruncated && cmds != [] then size - |left| else valid)
              && if cut then sv.loadTruncated && out else left == "" && !open
            case Exit(UnexpectedEnd) => !sv.loadTruncated && out
            case Exit(FormatError) => Wrong(left)
            case Exit(UnknownCommand) => exists cmd, after :: Text(left, cmd, after) && cmd != [] && !sv.known(cmd[0])
            case Exit(ReadError) => |left| > 1 && left[0] == '*' && left[1] == '\0'
    decreases |rest|
  {
    hide Line, Atoi, LoadArgs, LoadCommand, Text, CutCommand, Wrong;
    CommandMeans(rest);
    cmds, left := [], rest;
    if LoadCommand(rest).Got? {
      var cmd, after := LoadCommand(rest).cmd, LoadCommand(rest).rest;
      if sv.known(cmd[0]) {
        var more;
        more, left := LoadFromMeans(after, size, sv, executed + [cmd], if sv.loadTruncated then size - |after| else valid,
                                    sv.inMulti(multi, cmd));
        cmds := [cmd] + more;
        assert cmds[1..] == more && executed + [cmd] + more == executed + cmds;
      }
    } else {
      assert executed + [] == executed;
    }
  }

  /** A file is cut back only where it ends inside a command or an open MULTI, and right
      behind the commands before that; it is loaded without a cut only if it is a log. */
  lemma LoadMeans(data: string, sv: Server) returns (cmds: seq<Command>, left: string)
    requires data != ""
    ensures Log(data, cmds, left, sv) && |left| <= |data|
    ensures var o := Load(data, sv);
            && (o.Loaded? ==> o.executed == cmds)
            && (o.Loaded? ==> o.validUpTo == if sv.loadTruncated && cmds != [] then |data| - |left| else 0)
            && (o.Loaded? && o.truncated ==> sv.loadTruncated)
            && (o.Loaded? && o.truncated ==> if left == "" then MultiAfter(sv, false, cmds) else CutCommand(left))
            && (o.Loaded? && !o.truncated ==> left == "" && !MultiAfter(sv, false, cmds))
            && (o == Exit(FormatError) ==> Wrong(left))
  {
    hide LoadFrom, Log, CutCommand, Wrong, MultiAfter;
    cmds, left := LoadFromMeans(data, |data|, sv, [], 0, false);
    assert [] + cmds == cmds;
  }
}
