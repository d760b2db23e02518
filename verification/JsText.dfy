/** The JavaScript string and number operations the parsers rely on. */
module JsText {
  import opened Common

  // ----- decimal numbers

  predicate AllDigits(s: string) {
    forall i | 0 <= i < |s| :: '0' <= s[i] <= '9'
  }

  /** Decimal digits, as `Number.prototype.toString(10)` prints a non-negative integer. */
  function Decimal(n: nat): (s: string)
    ensures |s| > 0 && AllDigits(s)
  {
    var last := [('0' as int + n % 10) as char];
    if n < 10 then last else Decimal(n / 10) + last
  }

  /** What a run of digits denotes. */
  function DigitsValue(s: string): nat
    requires AllDigits(s)
  {
    if s == [] then 0
    else 10 * DigitsValue(s[..|s| - 1]) + (s[|s| - 1] as int - '0' as int)
  }

  lemma {:induction false} DecimalValue(n: nat)
    ensures DigitsValue(Decimal(n)) == n
  {
    var s := Decimal(n);
    if n < 10 {
      assert s[..0] == [];
    } else {
      DecimalValue(n / 10);
      assert s[..|s| - 1] == Decimal(n / 10);
    }
  }

  /** The longest prefix of digits. */
  function DigitPrefix(s: string): (d: string)
    ensures d <= s && AllDigits(d)
    ensures |d| < |s| ==> !('0' <= s[|d|] <= '9')
  {
    if s != [] && '0' <= s[0] <= '9' then [s[0]] + DigitPrefix(s[1..]) else []
  }

  lemma DigitPrefixAll(s: string)
    requires AllDigits(s)
    ensures DigitPrefix(s) == s
  {
  }

  /** `parseInt(s, 10)`; `None` is NaN. */
  function ParseInt(s: string): Option<int> {
    ParseTrimmed(TrimStart(s))
  }

  function ParseTrimmed(t: string): Option<int> {
    var negative := t != [] && t[0] == '-';
    var u := if t != [] && (t[0] == '-' || t[0] == '+') then t[1..] else t;
    var d := DigitPrefix(u);
    if d == [] then None else Some(if negative then -(DigitsValue(d) as int) else DigitsValue(d) as int)
  }

  lemma ParseDigits(s: string)
    requires s != [] && AllDigits(s)
    ensures ParseInt(s) == Some(DigitsValue(s))
  {
    DigitPrefixAll(s);
    DigitIsNotSpace(s[0]);
    assert TrimStart(s) == s;
  }

  lemma ParseDecimal(n: nat)
    ensures ParseInt(Decimal(n)) == Some(n)
  {
    DecimalValue(n);
    ParseDigits(Decimal(n));
  }

  /** `parseInt` skips white space and takes the digits up to anything else. */
  lemma ParseIntReads(space: string, digits: string, rest: string)
    requires forall i | 0 <= i < |space| :: IsSpace(space[i])
    requires AllDigits(digits) && digits != [] && (rest != [] ==> !('0' <= rest[0] <= '9'))
    ensures ParseInt(space + (digits + rest)) == Some(DigitsValue(digits))
  {
    hide DigitsValue, DigitPrefix, IsSpace, ParseTrimmed, AllDigits, TrimStart;
    FirstDigit(digits, rest);
    DigitPrefixStops(digits, rest);
    ParseUnsigned(digits + rest);
    ParseIntSkips(space, digits + rest);
  }

  /** A sign may stand between the two. */
  lemma ParseIntReadsSigned(space: string, negative: bool, digits: string, rest: string)
    requires forall i | 0 <= i < |space| :: IsSpace(space[i])
    requires AllDigits(digits) && digits != [] && (rest != [] ==> !('0' <= rest[0] <= '9'))
    ensures ParseInt(space + ([if negative then '-' else '+'] + (digits + rest))) ==
      Some(if negative then -(DigitsValue(digits) as int) else DigitsValue(digits))
  {
    hide DigitsValue, DigitPrefix, IsSpace, ParseTrimmed, AllDigits, TrimStart;
    DigitPrefixStops(digits, rest);
    SignIsNotSpace();
    ParseSigned(negative, digits + rest);
    ParseIntSkips(space, [if negative then '-' else '+'] + (digits + rest));
  }

  lemma FirstDigit(digits: string, rest: string)
    requires AllDigits(digits) && digits != []
    ensures '0' <= (digits + rest)[0] <= '9' && !IsSpace((digits + rest)[0])
  {
    assert (digits + rest)[0] == digits[0];
    DigitIsNotSpace(digits[0]);
  }

  lemma ParseUnsigned(u: string)
    requires u != [] && '0' <= u[0] <= '9' && DigitPrefix(u) != []
    ensures ParseTrimmed(u) == Some(DigitsValue(DigitPrefix(u)))
  {
    hide DigitsValue, DigitPrefix, AllDigits;
  }

  lemma ParseSigned(negative: bool, u: string)
    requires DigitPrefix(u) != []
    ensures ParseTrimmed([if negative then '-' else '+'] + u) ==
      Some(if negative then -(DigitsValue(DigitPrefix(u)) as int) else DigitsValue(DigitPrefix(u)))
  {
    hide DigitsValue, DigitPrefix, AllDigits;
    assert ([if negative then '-' else '+'] + u)[1..] == u;
  }

  lemma ParseIntSkips(space: string, t: string)
    requires forall i | 0 <= i < |space| :: IsSpace(space[i])
    requires t != [] && !IsSpace(t[0])
    ensures ParseInt(space + t) == ParseTrimmed(t)
  {
    hide ParseTrimmed, IsSpace;
    TrimStartSkips(space, t);
  }

  lemma SignIsNotSpace()
    ensures !IsSpace('+') && !IsSpace('-')
  {
  }

  lemma {:induction false} TrimStartSkips(space: string, t: string)
    requires forall i | 0 <= i < |space| :: IsSpace(space[i])
    requires t != [] && !IsSpace(t[0])
    ensures TrimStart(space + t) == t
  {
    hide IsSpace;
    if space == [] {
      assert space + t == t;
    } else {
      TrimStartSkips(space[1..], t);
      assert (space + t)[0] == space[0] && (space + t)[1..] == space[1..] + t;
    }
  }

  lemma {:induction false} DigitPrefixStops(digits: string, rest: string)
    requires AllDigits(digits) && (rest != [] ==> !('0' <= rest[0] <= '9'))
    ensures DigitPrefix(digits + rest) == digits
  {
    if digits == [] {
      assert digits + rest == rest;
    } else {
      DigitPrefixStops(digits[1..], rest);
      assert (digits + rest)[1..] == digits[1..] + rest;
    }
  }

  /** The numbers below a hundred in decimal. */
  lemma SmallDecimals(n: nat)
    requires n < 100
    ensures Decimal(n) ==
      if n < 10 then [('0' as int + n) as char]
      else [('0' as int + n / 10) as char, ('0' as int + n % 10) as char]
  {
  }

  lemma DigitIsNotSpace(c: char)
    requires '0' <= c <= '9'
    ensures !IsSpace(c)
  {
  }

  // ----- white space

  /** The characters `String.prototype.trim` removes. */
  predicate IsSpace(c: char) {
    || '\t' <= c <= '\r'
    || c in {' ', '\U{A0}', '\U{1680}', '\U{2028}', '\U{2029}', '\U{202F}', '\U{205F}', '\U{3000}', '\U{FEFF}'}
    || '\U{2000}' <= c <= '\U{200A}'
  }

  function TrimStart(s: string): (r: string)
    ensures |r| <= |s| && r == s[|s| - |r|..]
    ensures r == [] || !IsSpace(r[0])
  {
    if s != [] && IsSpace(s[0]) then TrimStart(s[1..]) else s
  }

  function TrimEnd(s: string): (r: string)
    ensures r <= s
    ensures r == [] || !IsSpace(r[|r| - 1])
  {
    if s != [] && IsSpace(s[|s| - 1]) then TrimEnd(s[..|s| - 1]) else s
  }

  function Trim(s: string): (r: string) {
    TrimEnd(TrimStart(s))
  }

  predicate Trimmed(s: string) {
    s == [] || (!IsSpace(s[0]) && !IsSpace(s[|s| - 1]))
  }

  /** `trim` removes nothing exactly when there is no white space at either end, and it is idempotent. */
  lemma TrimIsIdentityIffTrimmed(s: string)
    ensures Trim(s) == s <==> Trimmed(s)
    ensures Trimmed(Trim(s))
  {
    var t := TrimStart(s);
    if Trim(s) == s {
      assert |t| == |s|;
    }
    if Trim(s) != [] {
      assert Trim(s)[0] == t[0];
    }
  }

  lemma {:induction false} TrimStartDrops(s: string)
    ensures forall i | 0 <= i < |s| - |TrimStart(s)| :: IsSpace(s[i])
  {
    hide IsSpace;
    if s != [] && IsSpace(s[0]) {
      TrimStartDrops(s[1..]);
      assert forall i | 0 < i < |s| :: s[i] == s[1..][i - 1];
    }
  }

  lemma {:induction false} TrimEndDrops(s: string)
    ensures forall i | |TrimEnd(s)| <= i < |s| :: IsSpace(s[i])
  {
    hide IsSpace;
    if s != [] && IsSpace(s[|s| - 1]) {
      TrimEndDrops(s[..|s| - 1]);
    }
  }

  /** `trim` removes white space only. */
  lemma TrimDrops(s: string) returns (i: nat, j: nat)
    ensures i <= j <= |s| && Trim(s) == s[i..j]
    ensures forall k | 0 <= k < i || j <= k < |s| :: IsSpace(s[k])
  {
    hide IsSpace, TrimStart, TrimEnd;
    var t := TrimStart(s);
    i, j := |s| - |t|, |s| - |t| + |Trim(s)|;
    TrimStartDrops(s);
    TrimEndDrops(t);
    assert forall k | i <= k < |s| :: s[k] == t[k - i];
  }

  lemma TrimLeadingSpace(s: string)
    ensures Trim([' '] + s) == Trim(s)
  {
    assert ([' '] + s)[1..] == s;
    assert TrimStart([' '] + s) == TrimStart(s);
  }

  // ----- searching and splitting

  /** `indexOf(c)`, with the length for "not found". */
  function IndexOf(s: string, c: char): (i: nat)
    ensures i <= |s| && c !in s[..i]
    ensures i < |s| ==> s[i] == c
  {
    if s == [] then 0 else if s[0] == c then 0 else 1 + IndexOf(s[1..], c)
  }

  lemma {:induction false} IndexOfFirst(a: string, c: char, b: string)
    requires c !in a
    ensures IndexOf(a + [c] + b, c) == |a|
  {
    if a != [] {
      IndexOfFirst(a[1..], c, b);
      assert (a + [c] + b)[1..] == a[1..] + [c] + b;
      assert (a + [c] + b)[0] == a[0] && a[0] in a;
    }
  }

  /** `s.substring(s.lastIndexOf(c) + 1)`. */
  function AfterLast(s: string, c: char): (r: string)
    ensures c !in r && |r| <= |s| && r == s[|s| - |r|..]
    ensures r == s <==> c !in s
    ensures c in s ==> s[|s| - |r| - 1] == c
  {
    if c in s then AfterLast(s[1..], c) else s
  }

  lemma {:induction false} AfterLastOf(a: string, c: char, b: string)
    ensures AfterLast(a + [c] + b, c) == AfterLast(b, c)
  {
    var s := a + [c] + b;
    assert s[|a|] == c;
    if a == [] {
      assert s[1..] == b;
    } else {
      assert s[1..] == a[1..] + [c] + b;
      AfterLastOf(a[1..], c, b);
    }
  }

  const CRLF := "\r\n"

  /** `s.split("\r\n")`. */
  function SplitLines(s: string): (lines: seq<string>)
    ensures lines != []
    decreases |s|
  {
    if s == [] then [""]
    else if CRLF <= s then [""] + SplitLines(s[2..])
    else
      var rest := SplitLines(s[1..]);
      [[s[0]] + rest[0]] + rest[1..]
  }

  /** Lines with CRLF between them. */
  function JoinLines(lines: seq<string>): string
    requires lines != []
  {
    if |lines| == 1 then lines[0] else lines[0] + CRLF + JoinLines(lines[1..])
  }

  predicate HasBreak(line: string) {
    exists i | 0 <= i < |line| - 1 :: line[i] == '\r' && line[i + 1] == '\n'
  }

  /** `split` is undone by joining, and breaks at every CRLF. */
  lemma {:induction false} SplitLinesExact(s: string)
    ensures JoinLines(SplitLines(s)) == s
    ensures forall n | 0 <= n < |SplitLines(s)| :: !HasBreak(SplitLines(s)[n])
    decreases |s|
  {
    var lines := SplitLines(s);
    if s == [] {
    } else if CRLF <= s {
      SplitLinesExact(s[2..]);
      assert lines[1..] == SplitLines(s[2..]);
      assert s == CRLF + s[2..];
    } else {
      var rest := SplitLines(s[1..]);
      SplitLinesExact(s[1..]);
      JoinFirst(s[0], rest);
      assert s == [s[0]] + s[1..];
      NoBreakFirst(s, rest);
    }
  }

  lemma JoinFirst(c: char, rest: seq<string>)
    requires rest != []
    ensures JoinLines([[c] + rest[0]] + rest[1..]) == [c] + JoinLines(rest)
  {
    var lines := [[c] + rest[0]] + rest[1..];
    assert lines[1..] == rest[1..];
    if |rest| > 1 {
      Associative([c], rest[0], CRLF);
      Associative([c], rest[0] + CRLF, JoinLines(rest[1..]));
    }
  }

  lemma NoBreakFirst(s: string, rest: seq<string>)
    requires s != [] && !(CRLF <= s) && rest != [] && JoinLines(rest) == s[1..] && !HasBreak(rest[0])
    ensures !HasBreak([s[0]] + rest[0])
  {
    assert rest[0] != [] ==> rest[0][0] == s[1..][0] == s[1];
  }

  /** A line without a carriage return is split off whole. */
  lemma {:induction false} SplitLinesStep(line: string, rest: string)
    requires '\r' !in line
    ensures SplitLines(line + CRLF + rest) == [line] + SplitLines(rest)
  {
    var s := line + CRLF + rest;
    if line == [] {
      assert s[2..] == rest && CRLF <= s;
    } else {
      SplitLinesStep(line[1..], rest);
      assert s[1..] == line[1..] + CRLF + rest;
      assert s[0] == line[0] != '\r';
      assert [line[0]] + line[1..] == line;
    }
  }
}
