/** Writing and replaying the append only file (catAppendOnlyGenericCommand and
    loadAppendOnlyFile), and recovery from a file cut off anywhere. */
module AofLoad {
  import opened AofText

  /** What the loader needs of the server: the aof-load-truncated option, the command table
      and the MULTI flag after a command. */
  datatype Server = Server(loadTruncated: bool, known: string -> bool, inMulti: (bool, Command) -> bool)

  datatype Reason = FormatError | ReadError | UnknownCommand | UnexpectedEnd

  /** How loading ends: nothing to load, the commands executed and the offset behind the
      last of them, or the end of the process. `truncated` tells that the file was cut
      back to `validUpTo`. */
  datatype Outcome =
    | EmptyFile
    | Loaded(executed: seq<Command>, validUpTo: nat, truncated: bool)
    | Exit(reason: Reason)

  // ---------------------------------------------------------------- specification

  datatype ArgsResult = Args(args: seq<string>, rest: string) | CutOff | Malformed

  /** The argument loop on the bytes not read yet. A negative length cannot be allocated. */
  function LoadArgs(rest: string, n: nat): (r: ArgsResult)
    ensures r.Args? ==> |r.rest| <= |rest| && |r.args| == n
    decreases n
  {
    if n == 0 then Args([], rest) else
    var line := Line(rest, LINE);
    if line == "" then CutOff
    else if line[0] != '$' || Atoi(line[1..]) < 0 then Malformed
    else
      var len := Atoi(line[1..]);
      var body := rest[|line|..];
      if |body| < len + 2 then CutOff
      else
        var r := LoadArgs(body[len + 2..], n - 1);
        if r.Args? then Args([body[..len]] + r.args, r.rest) else r
  }

  datatype Step = NoMore | Got(cmd: Command, rest: string) | ShortRead(eof: bool) | BadFormat

  /** One round of the main loop up to the command lookup. */
  function LoadCommand(rest: string): (r: Step)
    ensures r.Got? ==> |r.rest| < |rest| && r.cmd != []
  {
    var line := Line(rest, LINE);
    if line == "" then NoMore
    else if line[0] != '*' then BadFormat
    else if |line| == 1 || line[1] == '\0' then ShortRead(HitsEnd(line, LINE))
    else if Atoi(line[1..]) < 1 then BadFormat
    else
      match LoadArgs(rest[|line|..], Atoi(line[1..]))
      case Args(args, after) => Got(args, after)
      case CutOff => ShortRead(true)
      case Malformed => BadFormat
  }

  function AtUnexpectedEnd(sv: Server, executed: seq<Command>, valid: nat): Outcome {
    if sv.loadTruncated then Loaded(executed, valid, true) else Exit(UnexpectedEnd)
  }

  function LoadFrom(rest: string, size: nat, sv: Server, executed: seq<Command>, valid: nat, multi: bool): Outcome
    requires |rest| <= size
    decreases |rest|
  {
    match LoadCommand(rest)
    case NoMore => if multi then AtUnexpectedEnd(sv, executed, valid) else Loaded(executed, valid, false)
    case ShortRead(eof) => if eof then AtUnexpectedEnd(sv, executed, valid) else Exit(ReadError)
    case BadFormat => Exit(FormatError)
    case Got(cmd, after) =>
      if !sv.known(cmd[0]) then Exit(UnknownCommand)
      else LoadFrom(after, size, sv, executed + [cmd], if sv.loadTruncated then size - |after| else valid,
                    sv.inMulti(multi, cmd))
  }

  function Load(data: string, sv: Server): Outcome {
    if data == "" then EmptyFile else LoadFrom(data, |data|, sv, [], 0, false)
  }

  // ---------------------------------------------------------------- the program

  /** catAppendOnlyGenericCommand */
  method CatAppendOnlyGenericCommand(dst: string, argv: seq<string>) returns (r: string)
    ensures r == dst + Encode(argv)
  {
    r := dst + Header('*', |argv|);
    for j := 0 to |argv|
      invariant r + EncodeArgs(argv[j..]) == dst + Encode(argv)
    {
      assert argv[j..][1..] == argv[j + 1..];
      assert r + EncodeArgs(argv[j..]) == r + EncodeBulk(argv[j]) + EncodeArgs(argv[j + 1..]);
      r := r + Header('$', |argv[j]|);
      r := r + argv[j];
      r := r + "\r\n";
    }
  }

  /** The loop of fgets. */
  method Scan(data: string, start: nat) returns (line: string)
    requires start <= |data|
    ensures line == Line(data[start..], LINE)
  {
    hide Line;
    var pos := start;
    line := "";
    ghost var rest := data[start..];
    while |line| < LINE && pos < |data| && (line == "" || line[|line| - 1] != '\n')
      invariant start <= pos <= |data| && |line| <= LINE && rest == data[pos..]
      invariant Line(data[start..], LINE) == line + Remains(line, rest)
      decreases |data| - pos
    {
      LineGrows(line, rest);
      line, rest := line + [data[pos]], rest[1..];
      pos := pos + 1;
    }
    LineNext(rest, LINE - |line|);
  }

  /** What the loop still adds to `line`. */
  ghost function Remains(line: string, rest: string): string
    requires |line| <= LINE
  {
    if line != "" && line[|line| - 1] == '\n' then "" else Line(rest, LINE - |line|)
  }

  lemma LineGrows(line: string, rest: string)
    requires |line| < LINE && rest != "" && (line == "" || line[|line| - 1] != '\n')
    ensures line + Remains(line, rest) == (line + [rest[0]]) + Remains(line + [rest[0]], rest[1..])
  {
    hide Line;
    LineNext(rest, LINE - |line|);
  }

  /** A stdio stream over the file's bytes. */
  class File {
    const data: string
    var pos: nat
    var eof: bool

    ghost predicate Valid()
      reads this
    {
      pos <= |data|
    }

    ghost function Rest(): string
      requires Valid()
      reads this
    {
      data[pos..]
    }

    constructor (data: string)
      ensures this.data == data && Valid() && Rest() == data && !eof
    {
      this.data, pos, eof := data, 0, false;
    }

    /** fgets with the loader's buffer; the empty line stands for NULL. */
    method Fgets() returns (line: string)
      requires Valid()
      modifies this
      ensures Valid() && line == Line(old(Rest()), LINE) && Rest() == old(Rest())[|line|..]
      ensures eof == (old(eof) || HitsEnd(line, LINE))
      ensures line <= old(Rest()) && |line| <= 127 && forall i | 0 <= i < |line| - 1 :: line[i] != '\n'
      ensures line == old(Rest()) || |line| == 127 || (line != "" && line[|line| - 1] == '\n')
    {
      hide Line;
      LineEnds(Rest(), LINE);
      line := Scan(data, pos);
      pos := pos + |line|;
      if |line| < LINE && (line == "" || line[|line| - 1] != '\n') { eof := true; }
    }

    /** fread of one block of n > 0 bytes; a short read consumes what is left. */
    method Fread(n: nat) returns (ok: bool, bytes: string)
      requires Valid() && n > 0
      modifies this
      ensures Valid() && ok == (|old(Rest())| >= n)
      ensures ok ==> bytes == old(Rest())[..n] && Rest() == old(Rest())[n..] && eof == old(eof)
      ensures !ok ==> Rest() == "" && eof
    {
      if |data| - pos >= n {
        bytes := data[pos..pos + n];
        pos := pos + n;
        return true, bytes;
      }
      pos := |data|;
      eof := true;
      return false, "";
    }
  }

  datatype ReadStatus = Complete | Short | Bad

  /** The argument loop of loadAppendOnlyFile. */
  method ReadArguments(f: File, argc: nat) returns (status: ReadStatus, argv: seq<string>)
    requires f.Valid()
    modifies f
    ensures f.Valid()
    ensures match LoadArgs(old(f.Rest()), argc)
            case Args(args, rest) => status == Complete && argv == args && f.Rest() == rest && f.eof == old(f.eof)
            case CutOff => status == Short && f.eof
            case Malformed => status == Bad
  {
    hide Line, Atoi, HitsEnd, Prepend, LoadArgs;
    argv := [];
    ghost var start := f.Rest();
    PrependNone(LoadArgs(start, argc));
    for j := 0 to argc
      invariant f.Valid() && f.eof == old(f.eof) && |argv| == j
      invariant LoadArgs(start, argc) == Prepend(argv, LoadArgs(f.Rest(), argc - j))
    {
      ghost var rest := f.Rest();
      LineAtEnd(rest, LINE);
      LoadArgsStep(rest, argc - j);
      PrependFails(argv, LoadArgs(rest, argc - j));
      var line := f.Fgets();
      if line == "" { return Short, argv; }
      if line[0] != '$' { return Bad, argv; }
      var len := Atoi(line[1..]);
      if len < 0 { return Bad, argv; }
      var ok, arg, crlf := true, "", "";
      if len > 0 { ok, arg := f.Fread(len); }
      if !ok { return Short, argv; }
      ok, crlf := f.Fread(2);
      if !ok { return Short, argv; }
      ghost var body := rest[|line|..];
      assert body[..len] == arg && f.Rest() == body[len + 2..];
      PrependOne(argv, arg, LoadArgs(f.Rest(), argc - j - 1));
      argv := argv + [arg];
    }
    LoadArgsStep(f.Rest(), 0);
    PrependEnd(argv, f.Rest());
    status := Complete;
  }

  lemma PrependNone(r: ArgsResult)
    ensures Prepend([], r) == r
  {
    if r.Args? { assert [] + r.args == r.args; }
  }

  lemma PrependEnd(argv: seq<string>, rest: string)
    ensures Prepend(argv, Args([], rest)) == Args(argv, rest)
  {
    assert argv + [] == argv;
  }

  lemma PrependFails(argv: seq<string>, r: ArgsResult)
    ensures !r.Args? ==> Prepend(argv, r) == r
  {
  }

  /** One unfolding of the specification. */
  lemma LoadArgsStep(rest: string, n: nat)
    ensures LoadArgs(rest, 0) == Args([], rest)
    ensures n > 0 ==> var line := Line(rest, LINE);
              if line == "" then LoadArgs(rest, n) == CutOff
              else if line[0] != '$' || Atoi(line[1..]) < 0 then LoadArgs(rest, n) == Malformed
              else
                var len, body := Atoi(line[1..]), rest[|line|..];
                if |body| < len + 2 then LoadArgs(rest, n) == CutOff
                else
                  var r := LoadArgs(body[len + 2..], n - 1);
                  LoadArgs(rest, n) == if r.Args? then Args([body[..len]] + r.args, r.rest) else r
  {
  }

  ghost function Prepend(argv: seq<string>, r: ArgsResult): ArgsResult {
    if r.Args? then Args(argv + r.args, r.rest) else r
  }

  lemma PrependOne(argv: seq<string>, arg: string, r: ArgsResult)
    ensures Prepend(argv + [arg], r) == Prepend(argv, if r.Args? then Args([arg] + r.args, r.rest) else r)
  {
    if r.Args? { assert argv + [arg] + r.args == argv + ([arg] + r.args); }
  }

  lemma LoadCommandStep(rest: string)
    ensures var line := Line(rest, LINE);
            if line == "" then LoadCommand(rest) == NoMore
            else if line[0] != '*' then LoadCommand(rest) == BadFormat
            else if |line| == 1 || line[1] == '\0' then LoadCommand(rest) == ShortRead(HitsEnd(line, LINE))
            else if Atoi(line[1..]) < 1 then LoadCommand(rest) == BadFormat
            else
              LoadCommand(rest) ==
              match LoadArgs(rest[|line|..], Atoi(line[1..]))
              case Args(args, after) => Got(args, after)
              case CutOff => ShortRead(true)
              case Malformed => BadFormat
  {
  }

  /** loadAppendOnlyFile */
  method LoadAppendOnlyFile(f: File, sv: Server) returns (o: Outcome)
    requires f.Valid() && f.pos == 0 && !f.eof
    modifies f
    ensures o == Load(f.data, sv)
  {
    hide Line, Atoi, HitsEnd, LoadArgs, LoadCommand;
    if |f.data| == 0 { return EmptyFile; }
    var executed: seq<Command> := [];
    var validUpTo, multi := 0, false;
    assert f.data[0..] == f.data;
    while true
      invariant f.Valid() && !f.eof && validUpTo >= 0
      invariant LoadFrom(f.Rest(), |f.data|, sv, executed, validUpTo, multi) == Load(f.data, sv)
      decreases |f.data| - f.pos
    {
      ghost var rest := f.Rest();
      LoadCommandStep(rest);
      LineAtEnd(rest, LINE);
      var line := f.Fgets();
      if line == "" { break; }
      if line[0] != '*' { return Exit(FormatError); }
      if |line| == 1 || line[1] == '\0' {
        return if f.eof then AtUnexpectedEnd(sv, executed, validUpTo) else Exit(ReadError);
      }
      var argc := Atoi(line[1..]);
      if argc < 1 { return Exit(FormatError); }
      LoadArgsAtEnd(argc);
      var status, argv := ReadArguments(f, argc);
      if status == Short { return AtUnexpectedEnd(sv, executed, validUpTo); }
      if status == Bad { return Exit(FormatError); }
      if !sv.known(argv[0]) { return Exit(UnknownCommand); }
      executed, multi := executed + [argv], sv.inMulti(multi, argv);
      if sv.loadTruncated { validUpTo := f.pos; }
    }
    o := if multi then AtUnexpectedEnd(sv, executed, validUpTo) else Loaded(executed, validUpTo, false);
  }

  lemma LoadArgsAtEnd(n: nat)
    requires n > 0
    ensures LoadArgs("", n) == CutOff
  {
  }

  // ---------------------------------------------------------------- what loading recovers

  /** A command as the server logs it: a known name, and sizes within the int and long of
      the program. */
  predicate Loggable(cmd: Command, sv: Server) {
    && 1 <= |cmd| < Pow10(20) && sv.known(cmd[0])
    && forall j | 0 <= j < |cmd| :: |cmd[j]| < Pow10(20)
  }

  predicate AllLoggable(cmds: seq<Command>, sv: Server) {
    forall i | 0 <= i < |cmds| :: Loggable(cmds[i], sv)
  }

  predicate Short20(args: seq<string>) { forall j | 0 <= j < |args| :: |args[j]| < Pow10(20) }

  lemma BodyParts(h: string, a: string, more: string)
    ensures var body := (h + (a + "\r\n" + more))[|h|..];
            body == a + "\r\n" + more && body[..|a|] == a && body[|a| + 2..] == more
  {
  }

  /** Encoded arguments read back, and the rest is left. */
  lemma {:induction false} ArgsReadBack(args: seq<string>, tail: string)
    requires Short20(args)
    ensures LoadArgs(EncodeArgs(args) + tail, |args|) == Args(args, tail)
  {
    hide Line, Atoi, Header, LoadArgs, Pow10;
    if args == [] {
      assert EncodeArgs(args) + tail == tail;
      LoadArgsStep(tail, 0);
    } else {
      var a, more := args[0], EncodeArgs(args[1..]) + tail;
      var h, rest := Header('$', |a|), EncodeArgs(args) + tail;
      assert rest == h + (a + "\r\n" + more);
      HeaderWhole('$', |a|, a + "\r\n" + more);
      HeaderChars('$', |a|);
      LoadArgsStep(rest, |args|);
      BodyParts(h, a, more);
      assert rest[|h|..] == a + "\r\n" + more;
      ArgsReadBack(args[1..], tail);
      assert [a] + args[1..] == args;
    }
  }

  /** Arguments cut off anywhere are noticed. */
  lemma {:induction false} ArgsCutOff(args: seq<string>, p: string)
    requires Short20(args) && p <= EncodeArgs(args) && |p| < |EncodeArgs(args)|
    ensures LoadArgs(p, |args|) == CutOff
  {
    hide Line, Atoi, Header, LoadArgs, Pow10, HitsEnd, IsDigit;
    var a := args[0];
    var h, bulk := Header('$', |a|), EncodeBulk(a);
    HeaderChars('$', |a|);
    LoadArgsStep(p, |args|);
    assert EncodeArgs(args) == bulk + EncodeArgs(args[1..]);
    if |p| < |h| {
      assert p == h[..|p|];
      if p == "" { LineOfNothing(); } else { HeaderCut('$', |a|, p); }
    } else {
      var body := p[|h|..];
      assert p == h + body;
      HeaderWhole('$', |a|, body);
      if |p| >= |bulk| {
        var q := p[|bulk|..];
        assert q == EncodeArgs(args[1..])[..|q|];
        assert body[|a| + 2..] == q;
        ArgsCutOff(args[1..], q);
      }
    }
  }

  lemma LineOfNothing()
    ensures Line("", LINE) == ""
  {
  }

  /** An encoded command reads back, and the rest is left. */
  lemma CommandReadBack(cmd: Command, sv: Server, tail: string)
    requires Loggable(cmd, sv)
    ensures LoadCommand(Encode(cmd) + tail) == Got(cmd, tail)
  {
    hide Line, Atoi, Header, LoadArgs, LoadCommand, Pow10, HitsEnd;
    var h, rest := Header('*', |cmd|), Encode(cmd) + tail;
    HeaderChars('*', |cmd|);
    assert rest == h + (EncodeArgs(cmd) + tail);
    HeaderWhole('*', |cmd|, EncodeArgs(cmd) + tail);
    LoadCommandStep(rest);
    ArgsReadBack(cmd, tail);
  }

  /** A command cut off anywhere but at its start is noticed at the end of the file. */
  lemma CommandCutOff(cmd: Command, sv: Server, p: string)
    requires Loggable(cmd, sv) && p <= Encode(cmd) && 0 < |p| < |Encode(cmd)|
    ensures LoadCommand(p) == ShortRead(true)
  {
    hide Line, Atoi, Header, LoadArgs, LoadCommand, Pow10, HitsEnd;
    var h := Header('*', |cmd|);
    HeaderChars('*', |cmd|);
    LoadCommandStep(p);
    if |p| < |h| {
      assert p == h[..|p|];
      HeaderCut('*', |cmd|, p);
      assert p[|p|..] == "";
      if |p| > 1 { LoadArgsAtEnd(Atoi(p[1..])); }
    } else {
      var q := p[|h|..];
      assert p == h + q && q == EncodeArgs(cmd)[..|q|];
      HeaderWhole('*', |cmd|, q);
      ArgsCutOff(cmd, q);
    }
  }

  /** How many commands lie wholly within the first `k` bytes. */
  function Whole(cmds: seq<Command>, k: nat): (n: nat)
    ensures n <= |cmds|
  {
    if cmds == [] || k < |Encode(cmds[0])| then 0 else 1 + Whole(cmds[1..], k - |Encode(cmds[0])|)
  }

  /** The MULTI flag after the commands `cmds`. */
  function MultiAfter(sv: Server, multi: bool, cmds: seq<Command>): bool
    decreases |cmds|
  {
    if cmds == [] then multi else MultiAfter(sv, sv.inMulti(multi, cmds[0]), cmds[1..])
  }

  /** What loading the first `k` bytes must give after `executed` commands and `base` bytes. */
  function Recovered(cmds: seq<Command>, k: nat, sv: Server, executed: seq<Command>, base: nat, valid: nat, multi: bool): Outcome {
    var n := Whole(cmds, k);
    var len := |EncodeAll(cmds[..n])|;
    var done := executed + cmds[..n];
    var upTo := if sv.loadTruncated && n > 0 then base + len else valid;
    if k == len && !MultiAfter(sv, multi, cmds[..n]) then Loaded(done, upTo, false) else AtUnexpectedEnd(sv, done, upTo)
  }

  /** The recursion of `Recovered`, one command on. */
  lemma RecoveredStep(cmds: seq<Command>, k: nat, sv: Server, executed: seq<Command>, base: nat, valid: nat, multi: bool)
    requires cmds != [] && |Encode(cmds[0])| <= k
    ensures var e := |Encode(cmds[0])|;
            Recovered(cmds, k, sv, executed, base, valid, multi) ==
            Recovered(cmds[1..], k - e, sv, executed + [cmds[0]], base + e,
                      if sv.loadTruncated then base + e else valid, sv.inMulti(multi, cmds[0]))
  {
    hide Encode;
    var n, n' := Whole(cmds, k), Whole(cmds[1..], k - |Encode(cmds[0])|);
    assert cmds[..n][1..] == cmds[1..][..n'];
    assert executed + [cmds[0]] + cmds[1..][..n'] == executed + cmds[..n];
    assert EncodeAll(cmds[..n]) == Encode(cmds[0]) + EncodeAll(cmds[1..][..n']);
  }

  lemma {:induction false} LoadPrefix(cmds: seq<Command>, k: nat, rest: string, size: nat, sv: Server,
                                      executed: seq<Command>, base: nat, valid: nat, multi: bool)
    requires AllLoggable(cmds, sv) && k <= |EncodeAll(cmds)| && rest == EncodeAll(cmds)[..k] && size == base + k
    ensures LoadFrom(rest, size, sv, executed, valid, multi) == Recovered(cmds, k, sv, executed, base, valid, multi)
    decreases |cmds|
  {
    hide Encode, LoadCommand, Loggable, LoadFrom, Recovered;
    if k == 0 || k < |Encode(cmds[0])| {
      NothingWhole(cmds, k, rest, size, sv, executed, base, valid, multi);
    } else {
      var c, e := cmds[0], |Encode(cmds[0])|;
      var after := EncodeAll(cmds[1..])[..k - e];
      assert rest == Encode(c) + after;
      OneRead(c, after, size, sv, executed, valid, multi);
      LoadPrefix(cmds[1..], k - e, after, size, sv, executed + [c], base + e,
                 if sv.loadTruncated then base + e else valid, sv.inMulti(multi, c));
      RecoveredStep(cmds, k, sv, executed, base, valid, multi);
    }
  }

  /** The end of the recursion: no command is left, or only a part of one. */
  lemma NothingWhole(cmds: seq<Command>, k: nat, rest: string, size: nat, sv: Server,
                     executed: seq<Command>, base: nat, valid: nat, multi: bool)
    requires AllLoggable(cmds, sv) && k <= |EncodeAll(cmds)| && rest == EncodeAll(cmds)[..k] && size == base + k
    requires k == 0 || k < |Encode(cmds[0])|
    ensures LoadFrom(rest, size, sv, executed, valid, multi) == Recovered(cmds, k, sv, executed, base, valid, multi)
  {
    hide Encode, LoadCommand, Loggable;
    if k == 0 {
      EmptyRest(cmds, sv);
    } else {
      assert Loggable(cmds[0], sv) && rest == Encode(cmds[0])[..k];
      CommandCutOff(cmds[0], sv, rest);
    }
  }

  lemma OneRead(c: Command, after: string, size: nat, sv: Server, executed: seq<Command>, valid: nat, multi: bool)
    requires Loggable(c, sv) && |Encode(c)| + |after| <= size
    ensures LoadFrom(Encode(c) + after, size, sv, executed, valid, multi)
         == LoadFrom(after, size, sv, executed + [c], if sv.loadTruncated then size - |after| else valid, sv.inMulti(multi, c))
  {
    hide Encode, LoadCommand, Loggable;
    CommandReadBack(c, sv, after);
    KnownName(c, sv);
  }

  lemma EmptyRest(cmds: seq<Command>, sv: Server)
    ensures LoadCommand("") == NoMore && Whole(cmds, 0) == 0
  {
    if cmds != [] { assert |Encode(cmds[0])| > 0; }
  }

  lemma KnownName(c: Command, sv: Server)
    requires Loggable(c, sv)
    ensures sv.known(c[0])
  {
  }

  /** Recovery: loading any non-empty prefix of a log executes exactly the commands that lie
      wholly within the prefix. With aof-load-truncated the file is cut back to their total
      length, unless they fill the prefix and no MULTI is open; without it the process
      ends in that case. */
  lemma LoadRecoversWholeCommands(cmds: seq<Command>, k: nat, sv: Server)
    requires AllLoggable(cmds, sv) && 0 < k <= |EncodeAll(cmds)|
    ensures var n := Whole(cmds, k);
            var len := |EncodeAll(cmds[..n])|;
            var clean := k == len && !MultiAfter(sv, false, cmds[..n]);
            Load(EncodeAll(cmds)[..k], sv) ==
              if sv.loadTruncated then Loaded(cmds[..n], len, !clean)
              else if clean then Loaded(cmds[..n], 0, false) else Exit(UnexpectedEnd)
  {
    hide EncodeAll, LoadFrom, Whole;
    LoadPrefix(cmds, k, EncodeAll(cmds)[..k], k, sv, [], 0, 0, false);
    var n := Whole(cmds, k);
    assert [] + cmds[..n] == cmds[..n];
    if n == 0 { NoCommands(cmds); }
  }

  lemma NoCommands(cmds: seq<Command>)
    ensures |EncodeAll(cmds[..0])| == 0
  {
  }

  /** `Whole` counts the longest list of leading commands that fits. */
  lemma {:induction false} WholeIsGreatest(cmds: seq<Command>, k: nat)
    ensures var n := Whole(cmds, k);
            |EncodeAll(cmds[..n])| <= k && (n < |cmds| ==> k < |EncodeAll(cmds[..n + 1])|)
    decreases |cmds|
  {
    hide Encode;
    if cmds != [] {
      var c, n := cmds[0], Whole(cmds, k);
      if |Encode(c)| <= k {
        WholeIsGreatest(cmds[1..], k - |Encode(c)|);
        assert cmds[..n][1..] == cmds[1..][..n - 1];
        if n < |cmds| { assert cmds[..n + 1][1..] == cmds[1..][..n]; }
      } else {
        assert cmds[..1][1..] == [];
      }
    }
  }

  /** The whole log reads back as the commands that were logged. */
  lemma LogRoundTrip(cmds: seq<Command>, sv: Server)
    requires AllLoggable(cmds, sv) && cmds != [] && !MultiAfter(sv, false, cmds)
    ensures Load(EncodeAll(cmds), sv) == Loaded(cmds, if sv.loadTruncated then |EncodeAll(cmds)| else 0, false)
  {
    hide Load, MultiAfter;
    var k := |EncodeAll(cmds)|;
    assert |Encode(cmds[0])| > 0;
    assert EncodeAll(cmds)[..k] == EncodeAll(cmds);
    LoadRecoversWholeCommands(cmds, k, sv);
    AllFit(cmds);
    assert cmds[..|cmds|] == cmds;
  }

  lemma {:induction false} AllFit(cmds: seq<Command>)
    ensures Whole(cmds, |EncodeAll(cmds)|) == |cmds|
  {
    if cmds != [] { AllFit(cmds[1..]); }
  }
}
