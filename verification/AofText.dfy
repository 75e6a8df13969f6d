/** The text of an append only file: how commands are printed, and what the C library calls
    of the loader read. A byte is a `char`. */
module AofText {

  type Command = seq<string>

  // ---------------------------------------------------------------- printing

  function DigitChar(d: nat): char
    requires d < 10
  {
    ('0' as int + d) as char
  }

  /** ll2string for a number that is not negative. */
  function Digits(n: nat): string {
    if n < 10 then [DigitChar(n)] else Digits(n / 10) + [DigitChar(n % 10)]
  }

  /** `*<n>\r\n` or `$<n>\r\n` */
  function Header(mark: char, n: nat): string { [mark] + Digits(n) + "\r\n" }

  function EncodeBulk(a: string): string { Header('$', |a|) + (a + "\r\n") }

  function EncodeArgs(args: seq<string>): string {
    if args == [] then "" else EncodeBulk(args[0]) + EncodeArgs(args[1..])
  }

  function Encode(cmd: Command): string { Header('*', |cmd|) + EncodeArgs(cmd) }

  function EncodeAll(cmds: seq<Command>): string {
    if cmds == [] then "" else Encode(cmds[0]) + EncodeAll(cmds[1..])
  }

  // ---------------------------------------------------------------- fgets and atoi

  /** The buffer of the loader holds 127 bytes and the terminating zero. */
  const LINE: nat := 127

  /** The bytes one fgets returns: up to `k` of them, and not beyond a newline. */
  function Line(rest: string, k: nat): (line: string)
    ensures line <= rest && |line| <= k
    ensures rest != "" && k > 0 ==> line != ""
  {
    if k == 0 || rest == "" then ""
    else if rest[0] == '\n' then "\n"
    else [rest[0]] + Line(rest[1..], k - 1)
  }

  lemma LineNext(rest: string, k: nat)
    ensures k == 0 || rest == "" ==> Line(rest, k) == ""
    ensures k > 0 && rest != "" ==> Line(rest, k) == if rest[0] == '\n' then "\n" else [rest[0]] + Line(rest[1..], k - 1)
  {
  }

  /** A line ends behind the first newline, if that is near enough, or is cut off. */
  lemma {:induction false} LineEnds(rest: string, k: nat)
    ensures var line := Line(rest, k);
            && (line == rest || |line| == k || (line != "" && line[|line| - 1] == '\n'))
            && forall i | 0 <= i < |line| - 1 :: line[i] != '\n'
  {
    if k > 0 && rest != "" && rest[0] != '\n' { LineEnds(rest[1..], k - 1); }
  }

  /** Did that fgets run into the end of the file? */
  predicate HitsEnd(line: string, k: nat) {
    |line| < k && (line == "" || line[|line| - 1] != '\n')
  }

  /** A line that hits the end is all that was left. */
  lemma LineAtEnd(rest: string, k: nat)
    ensures HitsEnd(Line(rest, k), k) ==> Line(rest, k) == rest
    ensures Line(rest, k) == "" && k > 0 ==> HitsEnd(Line(rest, k), k)
  {
  }

  predicate IsSpace(c: char) { c == ' ' || ('\t' <= c <= '\r') }

  predicate IsDigit(c: char) { '0' <= c <= '9' }

  function DigitsValue(s: string, acc: nat): nat {
    if s == "" || !IsDigit(s[0]) then acc
    else DigitsValue(s[1..], 10 * acc + (s[0] as int - '0' as int))
  }

  /** atoi and strtol in base ten, without overflow. */
  function Atoi(s: string): int {
    if s != "" && IsSpace(s[0]) then Atoi(s[1..])
    else if s != "" && s[0] == '-' then -(DigitsValue(s[1..], 0) as int)
    else if s != "" && s[0] == '+' then DigitsValue(s[1..], 0)
    else DigitsValue(s, 0)
  }

  // ---------------------------------------------------------------- facts about digits

  lemma DigitsAreDigits(n: nat)
    ensures Digits(n) != "" && forall i | 0 <= i < |Digits(n)| :: IsDigit(Digits(n)[i])
    ensures n >= 1 ==> Digits(n)[0] != '0'
  {
  }

  function Pow10(k: nat): nat { if k == 0 then 1 else 10 * Pow10(k - 1) }

  /** Numbers below 10^k have at most k digits. */
  lemma {:induction false} DigitsShort(n: nat, k: nat)
    requires k >= 1 && n < Pow10(k)
    ensures |Digits(n)| <= k
  {
    if n >= 10 {
      assert Pow10(1) == 10;
      DigitsShort(n / 10, k - 1);
    }
  }

  lemma {:induction false} DigitsValueAppend(s: string, d: nat, tail: string, acc: nat)
    requires d < 10 && forall i | 0 <= i < |s| :: IsDigit(s[i])
    requires tail == "" || !IsDigit(tail[0])
    ensures DigitsValue(s + [DigitChar(d)] + tail, acc) == 10 * DigitsValue(s, acc) + d
  {
    if s == "" {
      var t := [DigitChar(d)] + tail;
      assert s + [DigitChar(d)] + tail == t && t[1..] == tail;
    } else {
      var t := s + [DigitChar(d)] + tail;
      assert t[1..] == s[1..] + [DigitChar(d)] + tail;
      DigitsValueAppend(s[1..], d, tail, 10 * acc + (s[0] as int - '0' as int));
    }
  }

  /** Reading back the digits of a number gives the number. */
  lemma {:induction false} DigitsRoundTrip(n: nat, tail: string)
    requires tail == "" || !IsDigit(tail[0])
    ensures DigitsValue(Digits(n) + tail, 0) == n
  {
    if n < 10 {
      assert Digits(n) + tail == "" + [DigitChar(n)] + tail;
      DigitsValueAppend("", n, tail, 0);
    } else {
      DigitsAreDigits(n / 10);
      assert Digits(n) + tail == Digits(n / 10) + [DigitChar(n % 10)] + tail;
      DigitsValueAppend(Digits(n / 10), n % 10, tail, 0);
      DigitsRoundTrip(n / 10, "");
      assert Digits(n / 10) + "" == Digits(n / 10);
    }
  }

  lemma DigitsValueGrows(s: string, acc: nat)
    ensures DigitsValue(s, acc) >= acc
  {
  }

  /** A text without a minus sign is not read as a negative number. */
  lemma {:induction false} AtoiNotNegative(s: string)
    requires forall i | 0 <= i < |s| :: s[i] != '-'
    ensures Atoi(s) >= 0
  {
    if s != "" && IsSpace(s[0]) { AtoiNotNegative(s[1..]); }
  }

  // ---------------------------------------------------------------- facts about header lines

  /** The header line is read whole, and its number comes back. */
  lemma HeaderWhole(mark: char, n: nat, tail: string)
    requires mark != '\n' && n < Pow10(20)
    ensures Line(Header(mark, n) + tail, LINE) == Header(mark, n)
    ensures Atoi(Header(mark, n)[1..]) == n
  {
    DigitsAreDigits(n);
    DigitsShort(n, 20);
    var h := Header(mark, n);
    LineWhole(h, tail, LINE);
    assert h[1..] == Digits(n) + "\r\n";
    DigitsRoundTrip(n, "\r\n");
  }

  lemma {:induction false} LineWhole(h: string, tail: string, k: nat)
    requires 0 < |h| <= k && h[|h| - 1] == '\n' && forall i | 0 <= i < |h| - 1 :: h[i] != '\n'
    ensures Line(h + tail, k) == h
  {
    if |h| > 1 {
      assert (h + tail)[1..] == h[1..] + tail;
      LineWhole(h[1..], tail, k - 1);
    } else {
      assert h == "\n";
    }
  }

  lemma {:induction false} LineWithoutEnd(p: string, k: nat)
    requires |p| < k && forall i | 0 <= i < |p| :: p[i] != '\n'
    ensures Line(p, k) == p && HitsEnd(p, k)
  {
    if p != "" { LineWithoutEnd(p[1..], k - 1); }
  }

  /** The characters of a header line. */
  lemma HeaderChars(mark: char, n: nat)
    requires n < Pow10(20)
    ensures var h := Header(mark, n);
            && 3 < |h| < LINE && h[0] == mark && h[|h| - 1] == '\n' && IsDigit(h[1]) && (n >= 1 ==> h[1] != '0')
            && forall i | 0 < i < |h| - 1 :: h[i] != '\n' && h[i] != '-'
  {
    DigitsAreDigits(n);
    DigitsShort(n, 20);
  }

  lemma AtoiPositive(q: string)
    requires q != "" && IsDigit(q[0]) && q[0] != '0'
    ensures Atoi(q) >= 1
  {
    DigitsValueGrows(q[1..], q[0] as int - '0' as int);
  }

  /** A header line cut short is read to the end of the file; its number is not negative,
      and positive if a positive number's first digit is there. */
  lemma HeaderCut(mark: char, n: nat, p: string)
    requires mark != '\n' && n < Pow10(20) && p <= Header(mark, n) && 0 < |p| < |Header(mark, n)|
    ensures Line(p, LINE) == p && HitsEnd(p, LINE) && p[0] == mark && Atoi(p[1..]) >= 0
    ensures |p| > 1 ==> IsDigit(p[1])
    ensures |p| > 1 && n >= 1 ==> Atoi(p[1..]) >= 1
  {
    hide Header, Atoi, Line, IsDigit, Pow10;
    HeaderChars(mark, n);
    LineWithoutEnd(p, LINE);
    AtoiNotNegative(p[1..]);
    if |p| > 1 && n >= 1 { AtoiPositive(p[1..]); }
  }
}
