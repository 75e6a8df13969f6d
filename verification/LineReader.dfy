/** LineReader: newline-terminated lines out of a file descriptor that reads as few bytes at a
    time as it likes, through a buffer of fixed size. */
module LineReader {

  // what the lines of a text are

  function Find(text: string): (k: nat)
    ensures k <= |text| && '\n' !in text[..k] && (k < |text| ==> text[k] == '\n')
  {
    if text == "" || text[0] == '\n' then 0
    else
      var k := 1 + Find(text[1..]);
      assert text[..k] == [text[0]] + text[1..][..k - 1];
      k
  }

  /** The newline-terminated lines; an unterminated rest is none. */
  function LinesOf(text: string): (lines: seq<string>)
    decreases |text|
  {
    var k := Find(text);
    if k == |text| then [] else [text[..k]] + LinesOf(text[k + 1..])
  }

  function Unlines(lines: seq<string>): string {
    if lines == [] then "" else lines[0] + "\n" + Unlines(lines[1..])
  }

  lemma {:induction false} FindIs(text: string, k: nat)
    requires k <= |text| && '\n' !in text[..k] && (k < |text| ==> text[k] == '\n')
    ensures Find(text) == k
  {
    if k > 0 {
      assert text[0] in text[..k];
      assert text[1..][..k - 1] == text[..k][1..];
      FindIs(text[1..], k - 1);
    }
  }

  lemma FindFirst(line: string, rest: string)
    requires '\n' !in line
    ensures Find(line + "\n" + rest) == |line|
  {
    var text := line + "\n" + rest;
    assert text[..|line|] == line;
    FindIs(text, |line|);
  }

  /** The first newline is in the first part or after it. */
  lemma FindIn(part: string, rest: string)
    ensures Find(part + rest) == if Find(part) < |part| then Find(part) else |part| + Find(rest)
  {
    var k := if Find(part) < |part| then Find(part) else |part| + Find(rest);
    var text := part + rest;
    if Find(part) < |part| {
      assert text[..k] == part[..k];
    } else {
      assert part[..|part|] == part;
      assert text[..k] == part + rest[..Find(rest)];
    }
    FindIs(text, k);
  }

  lemma Splits(part: string, rest: string, k: nat)
    requires k < |part|
    ensures (part + rest)[..k] == part[..k] && (part + rest)[k + 1..] == part[k + 1..] + rest
  {
  }

  lemma LinesOfNext(text: string)
    requires Find(text) < |text|
    ensures LinesOf(text) == [text[..Find(text)]] + LinesOf(text[Find(text) + 1..])
  {
  }

  lemma UnlinesNext(line: string, lines: seq<string>)
    ensures Unlines([line] + lines) == line + "\n" + Unlines(lines)
  {
    assert ([line] + lines)[1..] == lines;
  }

  /** A list of lines without newlines and a rest without one can be read off their text. */
  lemma {:induction false} LinesOfUnlines(lines: seq<string>, tail: string)
    requires (forall line | line in lines :: '\n' !in line) && '\n' !in tail
    ensures LinesOf(Unlines(lines) + tail) == lines
  {
    hide Find;
    if lines == [] {
      NoNewline(tail);
      assert Unlines(lines) + tail == tail;
      NoLines(tail);
    } else {
      hide LinesOf, Unlines;
      var line, rest := lines[0], Unlines(lines[1..]) + tail;
      LinesOfUnlines(lines[1..], tail);
      assert lines == [line] + lines[1..];
      UnlinesNext(line, lines[1..]);
      var text := line + "\n" + rest;
      assert Unlines(lines) + tail == text;
      FindFirst(line, rest);
      LinesOfNext(text);
      assert text[..|line|] == line && text[|line| + 1..] == rest;
    }
  }

  lemma NoNewline(text: string)
    requires '\n' !in text
    ensures Find(text) == |text|
  {
    assert text[..|text|] == text;
    FindIs(text, |text|);
  }

  /** And every text is made of its lines and a rest without newline. */
  lemma {:induction false} TextIsLines(text: string) returns (tail: string)
    ensures text == Unlines(LinesOf(text)) + tail && '\n' !in tail
    ensures forall line | line in LinesOf(text) :: '\n' !in line
    decreases |text|
  {
    hide Unlines, Find;
    var k := Find(text);
    if k == |text| {
      tail := text;
      assert text[..k] == text;
      NoLines(text);
    } else {
      hide LinesOf;
      var rest := text[k + 1..];
      tail := TextIsLines(rest);
      LinesOfNext(text);
      UnlinesNext(text[..k], LinesOf(rest));
      assert text == text[..k] + "\n" + rest;
    }
  }

  lemma NoLines(text: string)
    requires Find(text) == |text|
    ensures LinesOf(text) == [] && Unlines([]) == ""
  {
  }

  /** The lines before the first one that, newline included, is longer than `size`. */
  function Fitting(lines: seq<string>, size: nat): seq<string> {
    if lines == [] || |lines[0]| + 1 > size then [] else [lines[0]] + Fitting(lines[1..], size)
  }

  lemma {:induction false} FittingIff(lines: seq<string>, size: nat)
    ensures Fitting(lines, size) <= lines
    ensures Fitting(lines, size) == lines <==> forall line | line in lines :: |line| + 1 <= size
  {
    if lines != [] {
      FittingIff(lines[1..], size);
      assert lines == [lines[0]] + lines[1..];
      assert lines[0] in lines;
    }
  }

  // the reader

  class File {
    var unread: string
    var failed: bool

    constructor (contents: string)
      ensures unread == contents && !failed
    {
      unread, failed := contents, false;
    }

    /** read(2), repeated while it is interrupted: an error, the end of the file, or some of
        the bytes. */
    method Read(count: nat) returns (len: int, bytes: string)
      requires count > 0
      modifies this
      ensures len == -1 || (0 <= len <= count && |bytes| == len && old(unread) == bytes + unread)
      ensures len == 0 ==> old(unread) == ""
      ensures len == -1 ==> failed
      ensures len >= 0 ==> failed == old(failed)
    {
      if * {
        failed := true;
        return -1, "";
      }
      if unread == "" { return 0, ""; }
      len :| 0 < len <= count && len <= |unread|;
      bytes := unread[..len];
      unread := unread[len..];
    }
  }

  /** ReadPersistent: as many bytes as asked for, or all that are left. */
  method ReadPersistent(fd: File, buf: array<char>, start: nat, count: nat) returns (num: int)
    requires start + count <= buf.Length
    modifies fd, buf
    ensures num == -1 ==> fd.failed
    ensures num >= 0 ==> fd.failed == old(fd.failed)
    ensures num == -1 || num == if |old(fd.unread)| < count then |old(fd.unread)| else count
    ensures num >= 0 ==> old(fd.unread) == buf[start..start + num] + fd.unread
    ensures forall i | 0 <= i < start || start + count <= i < buf.Length :: buf[i] == old(buf[i])
  {
    num := 0;
    while num < count
      invariant 0 <= num <= count && fd.failed == old(fd.failed)
      invariant old(fd.unread) == buf[start..start + num] + fd.unread
      invariant forall i | 0 <= i < start || start + count <= i < buf.Length :: buf[i] == old(buf[i])
    {
      ghost var had := buf[start..start + num];
      var len, bytes := fd.Read(count - num);
      if len < 0 { return -1; }
      if len == 0 { break; }
      forall i | 0 <= i < len { buf[start + num + i] := bytes[i]; }
      assert buf[start..start + num + len] == had + bytes;
      num := num + len;
    }
  }

  class LineReader {
    const fd: File
    const buf: array<char>
    var bol: nat
    /** -1 stands for the null pointer. */
    var eol: int
    var eod: nat

    constructor (fd: File, buf: array<char>)
      ensures this.fd == fd && this.buf == buf && Valid() && Left() == fd.unread
    {
      this.fd, this.buf := fd, buf;
      bol, eol, eod := 0, 0, 0;
    }

    /** The cursors, before the first call and after a successful one. */
    ghost predicate Valid()
      reads this
    {
      && eod <= buf.Length
      && (eod > 0 ==> 0 <= bol <= eol < eod)
    }

    /** What is still to be read, line by line. */
    ghost function Left(): string
      reads this, buf, fd
      requires Valid()
    {
      if eod == 0 then fd.unread else buf[eol + 1..eod] + fd.unread
    }

    method FindLineFeed() returns (at: int)
      requires bol <= eod <= buf.Length
      ensures at == var k := Find(buf[bol..eod]); if bol + k < eod then bol + k else -1
    {
      at := bol;
      while at < eod && buf[at] != '\n'
        invariant bol <= at <= eod && Find(buf[bol..eod]) == at - bol + Find(buf[at..eod])
      {
        assert buf[at..eod][1..] == buf[at + 1..eod];
        at := at + 1;
      }
      if at == eod { at := -1; }
    }

    /** What is in the buffer from `bol` on, followed by the rest of the file. */
    ghost function Ahead(): string
      reads this, buf, fd
      requires bol <= eod <= buf.Length
    {
      buf[bol..eod] + fd.unread
    }

    /** The first half of ReadLine: afterwards the next line is in the buffer as far as it
        fits. */
    method Fill() returns (ok: bool)
      requires Valid()
      modifies this`bol, this`eod, buf, fd
      ensures ok ==> bol < eod <= buf.Length && Ahead() == old(Left()) && fd.failed == old(fd.failed)
      ensures ok ==> Find(buf[bol..eod]) < eod - bol || eod - bol == buf.Length || fd.unread == ""
      ensures !ok ==> var text := old(Left()); fd.failed || Find(text) == |text| || Find(text) + 1 > buf.Length
    {
      hide Find;
      Nothing();
      if eod == 0 {
        var num := ReadPersistent(fd, buf, 0, buf.Length);
        if num <= 0 { return false; }
        eod := num;
        bol := 0;
        return true;
      }
      bol := eol + 1;
      var complete := FindLineFeed();
      if complete != -1 { return true; }
      FindIn(buf[bol..eod], fd.unread);
      ok := Append();
    }

    /** Moves the incomplete line to the front and reads more text behind it. */
    method Append() returns (ok: bool)
      requires bol <= eod <= buf.Length
      modifies this`bol, this`eod, buf, fd
      ensures ok ==> bol < eod <= buf.Length && Ahead() == old(Ahead()) && fd.failed == old(fd.failed)
      ensures ok ==> eod - bol == buf.Length || fd.unread == ""
      ensures !ok ==> fd.failed || old(fd.unread) == "" || old(eod - bol) == buf.Length
    {
      ghost var part := buf[bol..eod];
      var length := eod - bol;
      forall i | 0 <= i < length { buf[i] := buf[bol + i]; }
      var num := ReadPersistent(fd, buf, length, buf.Length - length);
      if num <= 0 { return false; }
      eod := length + num;
      bol := 0;
      assert buf[..length] == part && buf[..eod] == buf[..length] + buf[length..eod];
      return true;
    }

    lemma Nothing()
      ensures Find("") == 0
    {
    }

    /** A line is delivered exactly when what is left has one that fits the buffer, unless
        reading fails. */
    method ReadLine() returns (ok: bool)
      requires Valid()
      modifies this`bol, this`eol, this`eod, buf, fd
      ensures ok ==> Valid() && 0 <= bol <= eol < eod <= buf.Length && fd.failed == old(fd.failed)
      ensures var text := old(Left());
              if ok then Find(text) < |text| && Find(text) + 1 <= buf.Length
                         && buf[bol..eol] == text[..Find(text)] && Left() == text[Find(text) + 1..]
              else fd.failed || Find(text) == |text| || Find(text) + 1 > buf.Length
    {
      hide Find;
      ghost var text := Left();
      ok := Fill();
      if !ok { return; }
      ghost var part, rest := buf[bol..eod], fd.unread;
      FindIn(part, rest);
      ok := Terminate();
      if ok { Splits(part, rest, Find(part)); } else { Nothing(); }
    }

    /** The second half: the newline of the first line becomes a NUL. */
    method Terminate() returns (ok: bool)
      requires bol < eod <= buf.Length
      modifies this`eol, buf
      ensures var part := old(buf[bol..eod]);
              if ok then Find(part) < |part| && eol == bol + Find(part)
                         && buf[bol..eol] == part[..Find(part)] && buf[eol + 1..eod] == part[Find(part) + 1..]
              else Find(part) == |part|
    {
      hide Find;
      ghost var part := buf[bol..eod];
      eol := FindLineFeed();
      if eol == -1 { return false; }
      buf[eol] := '\0';
      assert buf[bol..eol] == part[..Find(part)] && buf[eol + 1..eod] == part[Find(part) + 1..];
      return true;
    }
  }

  /** The caller's loop: the lines up to the first failure are the file's newline-terminated
      lines, in order, up to the first that does not fit; if reading fails, some of them. */
  method ReadLines(fd: File, buf: array<char>) returns (lines: seq<string>)
    modifies fd, buf
    ensures lines <= Fitting(LinesOf(old(fd.unread)), buf.Length)
    ensures !fd.failed ==> lines == Fitting(LinesOf(old(fd.unread)), buf.Length)
  {
    hide Find, LinesOf, Fitting, LineReader.Left, LineReader.Valid;
    var reader := new LineReader(fd, buf);
    lines := [];
    ghost var left, size := fd.unread, buf.Length;
    ghost var more := Fitting(LinesOf(left), size);
    ghost var all := more;
    while true
      invariant reader.Valid() && reader.fd == fd && reader.buf == buf && fresh(reader) && left == reader.Left()
      invariant more == Fitting(LinesOf(left), size) && all == lines + more
      decreases |left|
    {
      FirstLine(left, size);
      var ok := reader.ReadLine();
      if !ok { return; }
      var line := buf[reader.bol..reader.eol];
      left := left[Find(left) + 1..];
      ghost var rest := Fitting(LinesOf(left), size);
      Regroup(lines, line, rest);
      lines, more := lines + [line], rest;
    }
  }

  lemma Regroup(lines: seq<string>, line: string, rest: seq<string>)
    ensures lines + ([line] + rest) == (lines + [line]) + rest
  {
  }

  lemma FirstLine(text: string, size: nat)
    ensures Fitting(LinesOf(text), size) ==
            if Find(text) == |text| || Find(text) + 1 > size then []
            else [text[..Find(text)]] + Fitting(LinesOf(text[Find(text) + 1..]), size)
  {
  }
}
