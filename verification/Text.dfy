/** Numbers as text and the few string operations the device drivers use. */
module Text {
  import opened Results

  // ---- digits in base 10 and 16 (upper case) ----

  type Base = b: nat | b == 10 || b == 16 witness 10

  function DigitChar(d: nat): char
    requires d < 16
  {
    if d < 10 then '0' + d as char else 'A' + (d - 10) as char
  }

  predicate IsDigit(c: char, b: Base) {
    '0' <= c <= '9' || (b == 16 && ('A' <= c <= 'F' || 'a' <= c <= 'f'))
  }

  function DigitValue(c: char, b: Base): (d: nat)
    requires IsDigit(c, b)
    ensures d < b
  {
    if '0' <= c <= '9' then c as int - '0' as int
    else if 'A' <= c <= 'F' then c as int - 'A' as int + 10
    else c as int - 'a' as int + 10
  }

  predicate AllDigits(s: string, b: Base) {
    forall i | 0 <= i < |s| :: IsDigit(s[i], b)
  }

  /** Printing a number, as std::to_string or an output stream does. */
  function Print(n: nat, b: Base): (s: string)
    ensures s != "" && AllDigits(s, b)
  {
    if n < b then [DigitChar(n)] else Print(n / b, b) + [DigitChar(n % b)]
  }

  function Value(s: string, b: Base): nat
    requires AllDigits(s, b)
  {
    if s == "" then 0 else Value(s[..|s| - 1], b) * b + DigitValue(s[|s| - 1], b)
  }

  lemma {:induction false} ValueOfPrint(n: nat, b: Base)
    ensures Value(Print(n, b), b) == n
  {
    var s := Print(n, b);
    if n < b {
      assert s[..0] == "";
    } else {
      ValueOfPrint(n / b, b);
      assert s[..|s| - 1] == Print(n / b, b);
    }
  }

  /** Printing is injective. */
  lemma PrintInjective(m: nat, n: nat, b: Base)
    ensures Print(m, b) == Print(n, b) <==> m == n
  {
    ValueOfPrint(m, b);
    ValueOfPrint(n, b);
  }

  function Zeros(k: nat): (s: string)
    ensures |s| == k && forall i | 0 <= i < k :: s[i] == '0'
  {
    if k == 0 then "" else "0" + Zeros(k - 1)
  }

  /** std::setw(w) with fill '0': text longer than w is not cut. */
  function Pad(s: string, w: nat): (p: string)
    ensures |p| == if |s| < w then w else |s|
  {
    if |s| < w then Zeros(w - |s|) + s else s
  }

  lemma {:induction false} LeadingZero(s: string, b: Base)
    requires AllDigits(s, b)
    ensures AllDigits("0" + s, b) && Value("0" + s, b) == Value(s, b)
  {
    var t := "0" + s;
    if s == "" {
      assert t[..0] == "";
    } else {
      LeadingZero(s[..|s| - 1], b);
      assert t[..|t| - 1] == "0" + s[..|s| - 1];
    }
  }

  lemma {:induction false} LeadingZeros(k: nat, s: string, b: Base)
    requires AllDigits(s, b)
    ensures AllDigits(Zeros(k) + s, b) && Value(Zeros(k) + s, b) == Value(s, b)
  {
    if k == 0 {
      assert Zeros(0) + s == s;
    } else {
      LeadingZeros(k - 1, s, b);
      LeadingZero(Zeros(k - 1) + s, b);
      assert Zeros(k) + s == "0" + (Zeros(k - 1) + s);
    }
  }

  function Power(b: Base, w: nat): (p: nat)
    ensures p > 0
  {
    if w == 0 then 1 else b * Power(b, w - 1)
  }

  lemma {:induction false} PrintLength(n: nat, b: Base, w: nat)
    requires w > 0
    ensures |Print(n, b)| <= w <==> n < Power(b, w)
    decreases w
  {
    if w == 1 {
      assert Power(b, 1) == b * Power(b, 0);
    } else if n >= b {
      PrintLength(n / b, b, w - 1);
      DivideBelow(n, b, Power(b, w - 1));
    }
  }

  lemma DivideBelow(n: nat, b: Base, p: nat)
    ensures n / b < p <==> n < b * p
  {
  }

  /** A number that fits its field survives padding and is read back. */
  lemma PaddedNumber(n: nat, b: Base, w: nat)
    requires w > 0 && n < Power(b, w)
    ensures var s := Pad(Print(n, b), w); |s| == w && AllDigits(s, b) && Value(s, b) == n
  {
    hide Print, Value, AllDigits, Power;
    PrintLength(n, b, w);
    ValueOfPrint(n, b);
    LeadingZeros(w - |Print(n, b)|, Print(n, b), b);
  }

  // ---- reading numbers the way std::stoi and std::stoul do ----

  predicate IsSpace(c: char) {
    c == ' ' || '\t' <= c <= '\r'
  }

  function SkipSpaces(s: string): string {
    if s != "" && IsSpace(s[0]) then SkipSpaces(s[1..]) else s
  }

  function DigitPrefix(s: string, b: Base): (n: nat)
    ensures n <= |s| && AllDigits(s[..n], b)
    ensures n < |s| ==> !IsDigit(s[n], b)
  {
    if s != "" && IsDigit(s[0], b) then 1 + DigitPrefix(s[1..], b) else 0
  }

  /** Leading spaces, an optional sign, digits; whatever follows the digits is ignored. */
  function ReadNumber(s: string, b: Base): Result<int> {
    var t := SkipSpaces(s);
    var u := if t != "" && (t[0] == '-' || t[0] == '+') then t[1..] else t;
    var n := DigitPrefix(u, b);
    if n == 0 then Err(RangeError)
    else
      var m: int := Value(u[..n], b);
      Ok(if t[0] == '-' then -m else m)
  }

  lemma {:induction false} DigitPrefixIs(s: string, rest: string, b: Base)
    requires AllDigits(s, b) && (rest == "" || !IsDigit(rest[0], b))
    ensures DigitPrefix(s + rest, b) == |s|
  {
    if s == "" {
      assert s + rest == rest;
    } else {
      assert (s + rest)[1..] == s[1..] + rest;
      DigitPrefixIs(s[1..], rest, b);
    }
  }

  lemma ReadDigits(s: string, rest: string, b: Base)
    requires s != "" && AllDigits(s, b) && (rest == "" || !IsDigit(rest[0], b))
    ensures ReadNumber(s + rest, b) == Ok(Value(s, b))
  {
    DigitPrefixIs(s, rest, b);
    assert IsDigit((s + rest)[0], b);
    assert (s + rest)[..|s|] == s;
  }

  lemma {:induction false} AfterSpaces(spaces: string, rest: string)
    requires (forall i | 0 <= i < |spaces| :: IsSpace(spaces[i])) && (rest == "" || !IsSpace(rest[0]))
    ensures SkipSpaces(spaces + rest) == rest
  {
    if spaces == "" {
      assert spaces + rest == rest;
    } else {
      AfterSpaces(spaces[1..], rest);
      assert (spaces + rest)[1..] == spaces[1..] + rest;
    }
  }

  lemma AfterSign(sign: string, u: string, b: Base)
    requires (sign == "" || sign == "+" || sign == "-") && u != "" && IsDigit(u[0], b)
    ensures var t := sign + u;
            && t != "" && !IsSpace(t[0]) && (t[0] == '-' <==> sign == "-")
            && (if t[0] == '-' || t[0] == '+' then t[1..] else t) == u
  {
    if sign == "" {
      assert sign + u == u;
    } else {
      assert (sign + u)[0] == sign[0] && (sign + u)[1..] == u;
    }
  }

  lemma DigitsAhead(digits: string, rest: string, b: Base)
    requires digits != "" && AllDigits(digits, b) && (rest == "" || !IsDigit(rest[0], b))
    ensures var u := digits + rest;
            u != "" && IsDigit(u[0], b) && DigitPrefix(u, b) == |digits| && u[..|digits|] == digits
  {
    assert (digits + rest)[0] == digits[0];
    DigitPrefixIs(digits, rest, b);
  }

  lemma SignedAhead(spaces: string, sign: string, u: string, b: Base)
    requires forall i | 0 <= i < |spaces| :: IsSpace(spaces[i])
    requires (sign == "" || sign == "+" || sign == "-") && u != "" && IsDigit(u[0], b)
    ensures var t := sign + u;
            && SkipSpaces(spaces + t) == t && t != "" && (t[0] == '-' <==> sign == "-")
            && (if t[0] == '-' || t[0] == '+' then t[1..] else t) == u
  {
    hide SkipSpaces;
    AfterSign(sign, u, b);
    AfterSpaces(spaces, sign + u);
  }

  lemma ReadsPrefix(s: string, t: string, u: string, n: nat, b: Base)
    requires SkipSpaces(s) == t && t != "" && u == (if t[0] == '-' || t[0] == '+' then t[1..] else t)
    requires DigitPrefix(u, b) == n > 0
    ensures ReadNumber(s, b) == Ok(var m: int := Value(u[..n], b); if t[0] == '-' then -m else m)
  {
  }

  /** Numbers are read from spaces, a sign and digits, up to what is no digit. */
  lemma ReadsNumber(spaces: string, sign: string, digits: string, rest: string, b: Base)
    requires forall i | 0 <= i < |spaces| :: IsSpace(spaces[i])
    requires sign == "" || sign == "+" || sign == "-"
    requires digits != "" && AllDigits(digits, b) && (rest == "" || !IsDigit(rest[0], b))
    ensures ReadNumber(spaces + (sign + (digits + rest)), b)
            == Ok(var n: int := Value(digits, b); if sign == "-" then -n else n)
  {
    hide SkipSpaces, DigitPrefix, ReadNumber, Value, IsSpace, IsDigit, AllDigits;
    var u := digits + rest;
    DigitsAhead(digits, rest, b);
    SignedAhead(spaces, sign, u, b);
    ReadsPrefix(spaces + (sign + u), sign + u, u, |digits|, b);
  }

  /** And from nothing else. */
  lemma NothingIsRead(spaces: string, sign: string, rest: string, b: Base)
    requires forall i | 0 <= i < |spaces| :: IsSpace(spaces[i])
    requires (sign == "" || sign == "+" || sign == "-") && (rest == "" || !IsDigit(rest[0], b))
    requires sign == "" ==> rest == "" || (!IsSpace(rest[0]) && rest[0] != '+' && rest[0] != '-')
    ensures ReadNumber(spaces + (sign + rest), b) == Err(RangeError)
  {
    AfterSpaces(spaces, sign + rest);
    assert sign == "" ==> sign + rest == rest;
    assert sign != "" ==> (sign + rest)[1..] == rest;
  }

  /** The characters of the C locale. */
  lemma CharacterClasses(c: char)
    ensures IsSpace(c) <==> c as int in {9, 10, 11, 12, 13, 32}
    ensures IsPrint(c) <==> 32 <= c as int <= 126
    ensures IsDigit(c, 10) <==> 48 <= c as int <= 57
    ensures IsDigit(c, 16) <==> 48 <= c as int <= 57 || 65 <= c as int <= 70 || 97 <= c as int <= 102
  {
  }

  lemma DigitsCount(i: nat)
    requires i < 16
    ensures i < 10 ==> DigitValue("0123456789"[i], 10) == i
    ensures DigitValue("0123456789ABCDEF"[i], 16) == DigitValue("0123456789abcdef"[i], 16) == i
  {
  }

  /** std::stoi: out_of_range when the number is no int. */
  function Stoi(s: string): Result<int> {
    var n :- ReadNumber(s, 10);
    if -0x8000_0000 <= n < 0x8000_0000 then Ok(n) else Err(RangeError)
  }

  /** std::stoul on a 64-bit platform; a minus sign negates modulo 2^64. */
  function Stoul(s: string, b: Base): Result<nat> {
    var n :- ReadNumber(s, b);
    if n >= 0x1_0000_0000_0000_0000 || n <= -0x1_0000_0000_0000_0000 then Err(RangeError)
    else Ok(if n < 0 then n + 0x1_0000_0000_0000_0000 else n)
  }

  function Dec(n: nat): (s: string)
    ensures s != "" && AllDigits(s, 10)
  {
    Print(n, 10)
  }

  function DecInt(n: int): string {
    if n < 0 then "-" + Dec(-n) else Dec(n)
  }

  lemma StoiOfDec(n: int)
    ensures Stoi(DecInt(n)) == if -0x8000_0000 <= n < 0x8000_0000 then Ok(n) else Err(RangeError)
  {
    var m := if n < 0 then -n else n;
    ValueOfPrint(m, 10);
    DigitPrefixIs(Dec(m), "", 10);
    assert Dec(m) + "" == Dec(m) && Dec(m)[..|Dec(m)|] == Dec(m);
    if n < 0 {
      assert DecInt(n)[1..] == Dec(m);
    } else {
      ReadDigits(Dec(m), "", 10);
    }
  }

  /** An unsigned number is read up to 2^64, and a negative one modulo 2^64. */
  lemma StoulReads(spaces: string, sign: string, digits: string, rest: string, b: Base)
    requires forall i | 0 <= i < |spaces| :: IsSpace(spaces[i])
    requires sign == "" || sign == "+" || sign == "-"
    requires digits != "" && AllDigits(digits, b) && (rest == "" || !IsDigit(rest[0], b))
    ensures var n := Value(digits, b);
            Stoul(spaces + (sign + (digits + rest)), b)
            == if n >= 0x1_0000_0000_0000_0000 then Err(RangeError)
               else if sign == "-" && n > 0 then Ok(0x1_0000_0000_0000_0000 - n) else Ok(n)
  {
    hide ReadNumber, SkipSpaces, DigitPrefix, Value, AllDigits, IsSpace, IsDigit;
    ReadsNumber(spaces, sign, digits, rest, b);
  }

  lemma StoulOfPrint(n: nat, b: Base)
    requires n < 0x1_0000_0000_0000_0000
    ensures Stoul(Print(n, b), b) == Ok(n)
  {
    ValueOfPrint(n, b);
    ReadDigits(Print(n, b), "", b);
    assert Print(n, b) + "" == Print(n, b);
  }

  lemma DecIntInjective(m: int, n: int)
    ensures DecInt(m) == DecInt(n) <==> m == n
  {
    if m < 0 && n < 0 {
      PrintInjective(-m, -n, 10);
      assert DecInt(m)[1..] == Dec(-m) && DecInt(n)[1..] == Dec(-n);
    } else if m >= 0 && n >= 0 {
      PrintInjective(m, n, 10);
    } else {
      assert DecInt(m)[0] != DecInt(n)[0];
    }
  }

  // ---- printable text ----

  predicate IsPrint(c: char) {
    ' ' <= c <= '~'
  }

  predicate AllPrint(s: string) {
    forall i | 0 <= i < |s| :: IsPrint(s[i])
  }

  /** Dropping every non-printable character. */
  function Printable(s: string): (p: string)
    ensures AllPrint(p) && |p| <= |s|
    ensures p == s <==> AllPrint(s)
  {
    if s == "" then ""
    else if IsPrint(s[0]) then
      assert s == [s[0]] + s[1..];
      [s[0]] + Printable(s[1..])
    else Printable(s[1..])
  }

  lemma {:induction false} PrintableConcat(a: string, b: string)
    ensures Printable(a + b) == Printable(a) + Printable(b)
  {
    if a == "" {
      assert a + b == b;
    } else {
      assert (a + b)[1..] == a[1..] + b;
      PrintableConcat(a[1..], b);
    }
  }

  lemma {:induction false} PrintableKeepsOut(s: string, c: char)
    requires c !in s
    ensures c !in Printable(s)
  {
    if s == "" {
    } else {
      PrintableKeepsOut(s[1..], c);
    }
  }

  lemma {:induction false} PrintableKeepsIn(s: string, c: char)
    requires IsPrint(c)
    ensures c in s ==> c in Printable(s)
  {
    if s == "" {
    } else {
      PrintableKeepsIn(s[1..], c);
    }
  }

  // ---- key=value lines ----

  /** The text after the first '='. */
  function AfterEquals(s: string): Result<string> {
    if s == "" then Err(DeviceError)
    else if s[0] == '=' then Ok(s[1..])
    else AfterEquals(s[1..])
  }

  /** Without an equals sign there is nothing to read. */
  lemma {:induction false} AfterNone(s: string)
    requires '=' !in s
    ensures AfterEquals(s) == Err(DeviceError)
  {
    if s == "" {
    } else {
      AfterNone(s[1..]);
    }
  }

  lemma {:induction false} AfterFirstEquals(k: string, v: string)
    requires '=' !in k
    ensures AfterEquals(k + "=" + v) == Ok(v)
  {
    var s := k + "=" + v;
    if k == "" {
      assert s[1..] == v;
    } else {
      AfterFirstEquals(k[1..], v);
      assert s[1..] == k[1..] + "=" + v;
    }
  }

  lemma {:induction false} AfterEarlierEquals(k: string, v: string)
    requires '=' in k
    ensures AfterEquals(k + "=" + v).Ok? && |AfterEquals(k + "=" + v).value| > |v|
  {
    var s := k + "=" + v;
    if k[0] == '=' {
    } else {
      AfterEarlierEquals(k[1..], v);
      assert s[1..] == k[1..] + "=" + v;
    }
  }

  /** Text is cut in one way only at the first occurrence of a character. */
  lemma {:induction false} SplitUnique(a: string, b: string, a': string, b': string, c: char)
    requires c !in a && c !in a' && a + [c] + b == a' + [c] + b'
    ensures a == a' && b == b'
  {
    var s, s' := a + [c] + b, a' + [c] + b';
    if a == "" || a' == "" {
      assert s[0] == s'[0];
      assert a == "" && a' == "";
      assert s[1..] == b && s'[1..] == b';
    } else {
      assert s[0] == s'[0];
      assert s[1..] == a[1..] + [c] + b && s'[1..] == a'[1..] + [c] + b';
      SplitUnique(a[1..], b, a'[1..], b', c);
      assert a == [a[0]] + a[1..] && a' == [a'[0]] + a'[1..];
    }
  }

  // ---- lines of a script ----

  /** What repeated std::getline(stream, line, '\n') yields: a final newline adds no line. */
  function Lines(s: string): (ls: seq<string>)
    ensures |ls| <= |s|
  {
    if s == "" then [] else
    var n := LineLength(s);
    [s[..n]] + (if n < |s| then Lines(s[n + 1..]) else [])
  }

  function LineLength(s: string): (n: nat)
    ensures n <= |s| && '\n' !in s[..n] && (n < |s| ==> s[n] == '\n')
  {
    if s == "" || s[0] == '\n' then 0 else 1 + LineLength(s[1..])
  }
}
