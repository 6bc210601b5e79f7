/** devices/Pfeiffer: vacuum gauge telegrams, built by one side and interpreted by the other.
    A char is signed, as on the platforms the server is built for. */
module Pfeiffer {
  import opened Results
  import opened Text

  // ---- numbers in fields ----

  /** str_from_number with a width: fill characters go before a sign. */
  function NumberText(n: int, width: nat): string {
    Pad(DecInt(n), width)
  }

  lemma {:induction false} ValueBelow(s: string, b: Base)
    requires AllDigits(s, b)
    ensures Value(s, b) < Power(b, |s|)
    decreases |s|
  {
    if s == "" {
    } else {
      var front := s[..|s| - 1];
      ValueBelow(front, b);
      Scaled(Value(front, b), Power(b, |front|), b, DigitValue(s[|s| - 1], b));
    }
  }

  lemma Scaled(v: nat, p: nat, b: Base, d: nat)
    requires v < p && d < b
    ensures v * b + d < b * p
  {
    if b == 10 {
    } else {
    }
  }

  /** A short text cannot hold a large number. */
  lemma StoiBelow(s: string, w: nat)
    requires |s| <= w
    ensures Stoi(s).Ok? ==> Stoi(s).value < Power(10, w)
  {
    var t := SkipSpaces(s);
    SpacesShorten(s);
    var u := if t != "" && (t[0] == '-' || t[0] == '+') then t[1..] else t;
    var n := DigitPrefix(u, 10);
    ValueBelow(u[..n], 10);
    PowerGrows(10, n, w);
  }

  lemma {:induction false} SpacesShorten(s: string)
    ensures |SkipSpaces(s)| <= |s|
  {
    if s == "" || !IsSpace(s[0]) {
    } else {
      SpacesShorten(s[1..]);
    }
  }

  lemma {:induction false} PowerGrows(b: Base, m: nat, n: nat)
    requires m <= n
    ensures Power(b, m) <= Power(b, n)
    decreases n
  {
    if m >= n {
    } else {
      PowerGrows(b, m, n - 1);
      assert Power(b, n) == b * Power(b, n - 1);
    }
  }

  lemma PowersOfTen()
    ensures Power(10, 2) == 100 && Power(10, 3) == 1000
  {
    assert Power(10, 1) == 10 * Power(10, 0);
  }

  /** A number put into a field reads back exactly when it is an int and the padding, if there
      is any, did not come before a sign. */
  lemma NumberReadsBack(n: int, width: nat)
    ensures Stoi(NumberText(n, width)) == Ok(n)
            <==> -0x8000_0000 <= n < 0x8000_0000 && (n >= 0 || |DecInt(n)| >= width)
  {
    var s := DecInt(n);
    if |s| >= width {
      StoiOfDec(n);
    } else if n >= 0 {
      PaddedDigits(n, width);
    } else {
      var zeros := Zeros(width - |s|);
      ZerosAreDigits(width - |s|);
      ReadDigits(zeros, s, 10);
    }
  }

  lemma ZerosAreDigits(k: nat)
    ensures AllDigits(Zeros(k), 10)
  {
  }

  lemma PaddedDigits(n: nat, width: nat)
    ensures var t := NumberText(n, width);
            && AllDigits(t, 10) && Value(t, 10) == n
            && Stoi(t) == if n < 0x8000_0000 then Ok(n) else Err(RangeError)
  {
    var t := NumberText(n, width);
    ValueOfPrint(n, 10);
    if |Dec(n)| < width {
      LeadingZeros(width - |Dec(n)|, Dec(n), 10);
    }
    hide Print, Value, AllDigits, Zeros;
    ReadDigits(t, "", 10);
    assert t + "" == t;
  }

  /** Different numbers have different texts, whatever the width. */
  lemma NumberTextInjective(m: int, n: int, width: nat)
    ensures NumberText(m, width) == NumberText(n, width) <==> m == n
  {
    HasSign(m, width);
    HasSign(n, width);
    if NumberText(m, width) == NumberText(n, width) {
      if m >= 0 {
        PaddedDigits(m, width);
        PaddedDigits(n, width);
      } else {
        SignSplits(m, width);
        SignSplits(n, width);
        SplitUnique(Sign(m, width), Dec(-m), Sign(n, width), Dec(-n), '-');
        PrintInjective(-m, -n, 10);
      }
    }
  }

  lemma HasSign(n: int, width: nat)
    ensures '-' in NumberText(n, width) <==> n < 0
  {
    if n < 0 {
      SignSplits(n, width);
    } else {
      PaddedDigits(n, width);
    }
  }

  /** What stands before the sign of a negative number. */
  function Sign(n: int, width: nat): string {
    if |DecInt(n)| < width then Zeros(width - |DecInt(n)|) else ""
  }

  lemma SignSplits(n: int, width: nat)
    requires n < 0
    ensures NumberText(n, width) == Sign(n, width) + ['-'] + Dec(-n) && '-' !in Sign(n, width)
  {
  }

  // ---- checksums ----

  function Code(c: char): nat {
    c as int % 256
  }

  /** An int converted to char. */
  function SignedChar(n: int): (c: int)
    ensures -128 <= c < 128 && c % 256 == n % 256
  {
    if n % 256 < 128 then n % 256 else n % 256 - 256
  }

  /** A byte as the signed char it is. */
  lemma ByteIsSigned(c: char)
    requires c as int < 256
    ensures Code(c) == c as int && SignedChar(Code(c)) == if c as int < 128 then c as int else c as int - 256
  {
  }

  /** std::accumulate over characters with an operation that takes the sum itself as a
      character: all but the last addition are cut to 8 bits. */
  function Accumulated(s: string): (v: int)
    ensures -256 <= v < 255
  {
    if s == "" then 0
    else SignedChar(Accumulated(s[..|s| - 1])) + SignedChar(Code(s[|s| - 1]))
  }

  /** The % of C++ truncates. */
  function Remainder(v: int): int {
    if v >= 0 then v % 256 else -(-v % 256)
  }

  function Checksum(s: string): (v: int)
    ensures -256 < v < 255
  {
    Remainder(Accumulated(s))
  }

  function ChecksumText(s: string): string {
    NumberText(Checksum(s), 3)
  }

  function Sum(s: string): nat {
    if s == "" then 0 else Sum(s[..|s| - 1]) + Code(s[|s| - 1])
  }

  lemma {:induction false} ChecksumIsSum(s: string)
    ensures Accumulated(s) % 256 == Sum(s) % 256 && Checksum(s) % 256 == Sum(s) % 256
    decreases |s|
  {
    if s == "" {
    } else {
      var front, c := s[..|s| - 1], Code(s[|s| - 1]);
      ChecksumIsSum(front);
      AddModulo(SignedChar(Accumulated(front)), Sum(front), SignedChar(c), c);
    }
    RemainderModulo(Accumulated(s));
  }

  lemma AddModulo(a: int, a': int, b: int, b': int)
    requires a % 256 == a' % 256 && b % 256 == b' % 256
    ensures (a + b) % 256 == (a' + b') % 256
  {
  }

  lemma RemainderModulo(v: int)
    ensures Remainder(v) % 256 == v % 256
  {
    if v < 0 {
      var q, r := -v / 256, -v % 256;
      assert v == -r - 256 * q;
      ModuloAgain(-r, q);
    }
  }

  lemma ModuloAgain(r: int, q: int)
    ensures (r - 256 * q) % 256 == r % 256
  {
  }

  /** The checksum of the Pfeiffer protocol, and when the driver computes it: not when it comes
      out negative. */
  function GenuineChecksum(s: string): (v: nat)
    ensures v < 256
  {
    Sum(s) % 256
  }

  lemma ChecksumIsGenuine(s: string)
    ensures Checksum(s) == GenuineChecksum(s) <==> Checksum(s) >= 0
  {
    ChecksumIsSum(s);
    InRange(Checksum(s), Sum(s) % 256);
  }

  /** For 7-bit text: whether the checksum is genuine depends on the sum before the last
      character. */
  lemma WhenGenuine(s: string)
    requires s != "" && Code(s[|s| - 1]) < 128
    ensures var before := Sum(s[..|s| - 1]) % 256;
            Checksum(s) == GenuineChecksum(s) <==> before < 128 || before + Code(s[|s| - 1]) >= 256
  {
    ChecksumIsGenuine(s);
    LastAddition(s);
    hide Sum, Accumulated, Checksum, GenuineChecksum;
    SmallRemainder(SignedChar(Sum(s[..|s| - 1])) + Code(s[|s| - 1]));
  }

  lemma LastAddition(s: string)
    requires s != "" && Code(s[|s| - 1]) < 128
    ensures Checksum(s) == Remainder(SignedChar(Sum(s[..|s| - 1])) + Code(s[|s| - 1]))
  {
    var front, last := s[..|s| - 1], Code(s[|s| - 1]);
    ChecksumIsSum(front);
    SameSignedChar(Accumulated(front), Sum(front));
    assert SignedChar(last) == last;
    hide SignedChar, Sum, Remainder, Code;
    assert Accumulated(s) == SignedChar(Accumulated(front)) + SignedChar(last);
  }

  lemma SameSignedChar(m: int, n: int)
    requires m % 256 == n % 256
    ensures SignedChar(m) == SignedChar(n)
  {
  }

  lemma SmallRemainder(v: int)
    requires -256 < v < 256
    ensures Remainder(v) == v
  {
  }

  lemma InRange(v: int, m: nat)
    requires -256 < v < 256 && m < 256 && v % 256 == m
    ensures v == m <==> v >= 0
  {
  }

  // ---- telegrams ----

  datatype Action = Read | Describe

  function ActionCode(a: Action): nat {
    match a
    case Read => 0
    case Describe => 10
  }

  /** A telegram without checksum and end of line. */
  function Body(address: nat, action: Action, parameter: nat, data: string): string {
    NumberText(address, 3) + NumberText(ActionCode(action), 2) + NumberText(parameter, 3)
    + NumberText(|data|, 2) + data
  }

  /** The two digits of the action: 00 asks, 10 tells. */
  lemma ActionInText(address: nat, action: Action, parameter: nat, data: string)
    requires address < 1000
    ensures Body(address, action, parameter, data)[3..5] == if action.Read? then "00" else "10"
  {
    FieldWidth(address, 3);
    PowersOfTen();
    assert NumberText(0, 2) == "00" && NumberText(10, 2) == "10";
    hide NumberText;
    var text := NumberText(ActionCode(action), 2);
    assert Body(address, action, parameter, data)
        == NumberText(address, 3) + text + (NumberText(parameter, 3) + NumberText(|data|, 2) + data);
  }

  /** What cmd writes. */
  function Telegram(body: string): string {
    body + ChecksumText(body) + "\r"
  }

  /** string::substr. */
  function Substr(s: string, pos: nat, n: nat): Result<string> {
    if pos > |s| then Err(RangeError)
    else Ok(if pos + n <= |s| then s[pos..pos + n] else s[pos..])
  }

  type Reading = (int, int, string)

  function Fields(t: string): Result<Reading> {
    var addressText :- Substr(t, 0, 3);
    var address :- Stoi(addressText);
    var parameterText :- Substr(t, 5, 3);
    var parameter :- Stoi(parameterText);
    var lengthText :- Substr(t, 8, 2);
    var n :- Stoi(lengthText);
    var data :- Substr(t, 10, if n < 0 then |t| else n);  // a negative length converts to a huge one
    Ok((address, parameter, data))
  }

  /** interpret_response_telegram. */
  function Interpret(t: string): Result<Reading> {
    if |t| < 4 then Err(RangeError)
    else if t[|t| - 4..|t| - 1] != ChecksumText(t[..|t| - 4]) then Err(DeviceError)
    else Fields(t)
  }

  /** The fields of any text: the numbers in its first, sixth and ninth place, and the data as long
      as told, or to the end if the length is too long or negative. */
  lemma FieldsOfText(t: string)
    ensures |t| < 10 ==> Fields(t).Err?
    ensures |t| >= 10 ==>
              var a, p, n := Stoi(t[0..3]), Stoi(t[5..8]), Stoi(t[8..10]);
              if a.Ok? && p.Ok? && n.Ok? then
                Fields(t) == Ok((a.value, p.value, if 0 <= n.value <= |t| - 10 then t[10..10 + n.value] else t[10..]))
              else Fields(t).Err?
  {
    if 8 <= |t| < 10 {
      assert t[8..] == t[8..|t|];
    }
    hide Stoi;
  }

  predicate Fits(address: nat, parameter: nat, data: string) {
    address < 1000 && parameter < 1000 && |data| < 100
  }

  lemma FieldWidth(n: nat, width: nat)
    requires width == 2 || width == 3
    ensures |NumberText(n, width)| == width <==> n < Power(10, width)
    ensures |NumberText(n, width)| >= width
  {
    PrintLength(n, 10, width);
  }

  lemma ActionField(a: Action)
    ensures |NumberText(ActionCode(a), 2)| == 2
  {
    FieldWidth(ActionCode(a), 2);
    PowersOfTen();
  }

  lemma Cuts(a: string, b: string, c: string, d: string, data: string, tail: string)
    requires |a| == 3 && |b| == 2 && |c| == 3 && |d| >= 2
    ensures var t := a + b + c + d + data + tail;
            && |t| >= 10 && t[0..3] == a && t[5..8] == c && t[8..10] == d[..2]
            && (|d| == 2 ==> t[10..] == data + tail)
  {
    var t := a + b + c + d + data + tail;
    assert t[0..3] == a;
    assert t[5..8] == c;
    assert t[8..10] == d[..2];
    if |d| == 2 {
      assert t[10..] == data + tail;
    }
  }

  lemma BodyFields(address: nat, action: Action, parameter: nat, data: string, tail: string)
    requires address < 1000 && parameter < 1000
    ensures var t, size := Body(address, action, parameter, data) + tail, NumberText(|data|, 2);
            && |t| >= 10 && |size| >= 2
            && t[0..3] == NumberText(address, 3) && t[5..8] == NumberText(parameter, 3)
            && t[8..10] == size[..2]
            && (|size| == 2 ==> t[10..] == data + tail)
  {
    hide NumberText;
    FieldWidth(address, 3);
    FieldWidth(parameter, 3);
    FieldWidth(|data|, 2);
    PowersOfTen();
    ActionField(action);
    Cuts(NumberText(address, 3), NumberText(ActionCode(action), 2), NumberText(parameter, 3), NumberText(|data|, 2),
         data, tail);
  }

  /** The fields of a telegram are read as they were written if and only if they fit. */
  lemma FieldsOfBody(address: nat, action: Action, parameter: nat, data: string, tail: string)
    ensures Fields(Body(address, action, parameter, data) + tail) == Ok((address, parameter, data))
            <==> Fits(address, parameter, data)
  {
    hide NumberText, Body, Stoi;
    var t := Body(address, action, parameter, data) + tail;
    TooWide(t);
    if address < 1000 && parameter < 1000 {
      BodyFields(address, action, parameter, data, tail);
      PaddedDigits(address, 3);
      PaddedDigits(parameter, 3);
      PaddedDigits(|data|, 2);
      FieldWidth(|data|, 2);
      PowersOfTen();
      if |data| < 100 {
        assert t[8..10] == NumberText(|data|, 2);
        assert t[10..10 + |data|] == t[10..][..|data|] == data;
      } else {
        DigitsAreNotNegative(t[8..10]);
        StoiBelow(t[8..10], 2);
      }
    }
  }

  lemma DigitsAreNotNegative(s: string)
    requires AllDigits(s, 10) && s != ""
    ensures Stoi(s).Ok? ==> Stoi(s).value >= 0
  {
    ReadDigits(s, "", 10);
    assert s + "" == s;
  }

  lemma TooWide(t: string)
    ensures Fields(t).Ok? ==> Fields(t).value.0 < 1000 && Fields(t).value.1 < 1000
  {
    PowersOfTen();
    if Fields(t).Ok? {
      StoiBelow(Substr(t, 0, 3).value, 3);
      StoiBelow(Substr(t, 5, 3).value, 3);
    }
  }

  // ---- what interpreting makes of telegrams ----

  lemma InterpretCuts(body: string, sum: string)
    requires |sum| == 3
    ensures var t := body + sum + "\r";
            t[|t| - 4..|t| - 1] == sum && t[..|t| - 4] == body
  {
  }

  lemma MismatchIsRefused(body: string, sum: string)
    requires |sum| == 3 && sum != ChecksumText(body)
    ensures Interpret(body + sum + "\r") == Err(DeviceError)
  {
    InterpretCuts(body, sum);
  }

  lemma LongChecksumText(body: string)
    requires Checksum(body) <= -100
    ensures var digits := Dec(-Checksum(body));
            |digits| == 3 && digits == NumberText(-Checksum(body), 3) && ChecksumText(body) == "-" + digits
  {
    var v := Checksum(body);
    hide Checksum;
    PowersOfTen();
    PrintLength(-v, 10, 2);
    PrintLength(-v, 10, 3);
  }

  lemma ChecksumPastMinus(body: string)
    requires Checksum(body) <= -100
    ensures Checksum(body + "-") != -Checksum(body)
  {
    assert (body + "-")[..|body|] == body;
    assert Accumulated(body + "-") == SignedChar(Accumulated(body)) + 45;
    hide Accumulated;
  }

  /** A checksum of four characters, "-100" or less, is cut, and what is left of it does not
      match. */
  lemma LongChecksumFails(body: string)
    requires Checksum(body) <= -100
    ensures Interpret(Telegram(body)) == Err(DeviceError)
  {
    hide Checksum, NumberText, Interpret, Dec, Print;
    LongChecksumText(body);
    ChecksumPastMinus(body);
    var digits, body' := Dec(-Checksum(body)), body + "-";
    NumberTextInjective(-Checksum(body), Checksum(body'), 3);
    MismatchIsRefused(body', digits);
    assert Telegram(body) == body' + digits + "\r";
  }

  lemma ShortChecksum(body: string)
    ensures Checksum(body) > -100 <==> |ChecksumText(body)| == 3
  {
    var v := Checksum(body);
    PowersOfTen();
    if v < 0 {
      PrintLength(-v, 10, 2);
    } else {
      PrintLength(v, 10, 3);
    }
  }

  /** Main result: interpreting a telegram that semantic_command built gives back what it was
      built from if and only if every field fits and the checksum is above -100. */
  lemma RoundTrip(address: nat, action: Action, parameter: nat, data: string)
    ensures var body := Body(address, action, parameter, data);
            Interpret(Telegram(body)) == Ok((address, parameter, data))
            <==> Fits(address, parameter, data) && Checksum(body) > -100
  {
    var body := Body(address, action, parameter, data);
    hide Body, Checksum, Fields;
    if Checksum(body) <= -100 {
      LongChecksumFails(body);
    } else {
      ShortChecksum(body);
      InterpretCuts(body, ChecksumText(body));
      FieldsOfBody(address, action, parameter, data, ChecksumText(body) + "\r");
      assert Telegram(body) == body + (ChecksumText(body) + "\r");
    }
  }

  /** So for data that do not end in a control character the fields alone decide. */
  lemma TextRoundTrip(address: nat, action: Action, parameter: nat, data: string)
    requires data != "" ==> ' ' as int <= Code(data[|data| - 1]) < 128
    ensures Interpret(Telegram(Body(address, action, parameter, data))) == Ok((address, parameter, data))
            <==> Fits(address, parameter, data)
  {
    RoundTrip(address, action, parameter, data);
    hide Checksum, Interpret;
    LastOfBody(address, action, parameter, data);
    NoLongChecksum(Body(address, action, parameter, data));
  }

  lemma LastOfBody(address: nat, action: Action, parameter: nat, data: string)
    ensures var body := Body(address, action, parameter, data);
            && body != ""
            && if data == "" then '0' <= body[|body| - 1] <= '9' else body[|body| - 1] == data[|data| - 1]
  {
    var size := NumberText(|data|, 2);
    EndsInDigit(|data|, 2);
    hide NumberText;
    LastOf(NumberText(address, 3) + NumberText(ActionCode(action), 2) + NumberText(parameter, 3), size, data);
  }

  lemma EndsInDigit(n: nat, width: nat)
    ensures var t := NumberText(n, width); t != "" && '0' <= t[|t| - 1] <= '9'
  {
    PaddedDigits(n, width);
    var t := NumberText(n, width);
    assert t != "" ==> IsDigit(t[|t| - 1], 10);
  }

  lemma LastOf(front: string, size: string, data: string)
    requires size != ""
    ensures var s := front + size + data;
            s != "" && s[|s| - 1] == if data == "" then size[|size| - 1] else data[|data| - 1]
  {
  }

  lemma NoLongChecksum(body: string)
    requires body != "" && ' ' as int <= Code(body[|body| - 1]) < 128
    ensures Checksum(body) > -100
  {
  }

  lemma StepOf(s: string, i: nat, before: int, after: int)
    requires i < |s| && Accumulated(s[..i]) == before
    requires after == (if before >= 128 then before - 256 else before) + s[i] as int
    requires -128 <= before < 256 && s[i] as int < 128
    ensures Accumulated(s[..i + 1]) == after
  {
    assert s[..i + 1][..i] == s[..i];
  }

  /** But data that end in a newline, for one, may not survive. */
  lemma NewlineIsLost()
    ensures Interpret(Telegram(Body(999, Describe, 9, "~\n"))) == Err(DeviceError)
  {
    var body := "9991000902~\n";
    BodyOfExample();
    ChecksumOfExample();
    LongChecksumFails(body);
  }

  lemma BodyOfExample()
    ensures Body(999, Describe, 9, "~\n") == "9991000902~\n"
  {
    assert Print(999, 10) == Print(99, 10) + "9" == Print(9, 10) + "9" + "9";
    assert Print(10, 10) == Print(1, 10) + "0";
    assert Zeros(2) == "0" + Zeros(1) == "00" && Zeros(1) == "0";
    assert NumberText(999, 3) == "999" && NumberText(10, 2) == "10" && NumberText(9, 3) == "009" && NumberText(2, 2) == "02";
  }

  lemma FirstHalfOfExample()
    ensures Accumulated("9991000902~\n"[..6]) == 60
  {
    var s := "9991000902~\n";
    assert Accumulated(s[..0]) == 0;
    hide Accumulated;
    StepOf(s, 0, 0, 57);
    StepOf(s, 1, 57, 114);
    StepOf(s, 2, 114, 171);
    StepOf(s, 3, 171, -36);
    StepOf(s, 4, -36, 12);
    StepOf(s, 5, 12, 60);
  }

  lemma ChecksumOfExample()
    ensures Checksum("9991000902~\n") == -113
  {
    var s := "9991000902~\n";
    assert s[..12] == s;
    FirstHalfOfExample();
    hide Accumulated;
    StepOf(s, 6, 60, 108);
    StepOf(s, 7, 108, 165);
    StepOf(s, 8, 165, -43);
    StepOf(s, 9, -43, 7);
    StepOf(s, 10, 7, 133);
    StepOf(s, 11, 133, -113);
  }

  /** What a gauge sends that follows the protocol. */
  function GenuineTelegram(body: string): string {
    body + NumberText(GenuineChecksum(body), 3) + "\r"
  }

  lemma GenuineIsAccepted(body: string)
    ensures Interpret(GenuineTelegram(body))
            == if Checksum(body) >= 0 then Fields(GenuineTelegram(body)) else Err(DeviceError)
  {
    hide Fields, Checksum;
    PowersOfTen();
    FieldWidth(GenuineChecksum(body), 3);
    InterpretCuts(body, NumberText(GenuineChecksum(body), 3));
    NumberTextInjective(Checksum(body), GenuineChecksum(body), 3);
    ChecksumIsGenuine(body);
  }

  lemma {:induction false} SumReplaced(s: string, i: nat, c: char)
    requires i < |s|
    ensures Sum(s[i := c]) == Sum(s) - Code(s[i]) + Code(c)
    decreases |s|
  {
    var n := |s| - 1;
    if i == n {
      assert s[i := c][..n] == s[..n];
    } else {
      assert s[i := c][..n] == s[..n][i := c];
      SumReplaced(s[..n], i, c);
    }
  }

  /** Main result: of any telegram the driver accepts, of whatever length, no character before
      the checksum can be replaced by another without the driver noticing. */
  lemma OneErrorIsDetected(t: string, i: nat, c: char)
    requires |t| >= 4 && i < |t| - 4 && Interpret(t).Ok? && Code(c) != Code(t[i])
    ensures Interpret(t[i := c]) == Err(DeviceError)
  {
    hide Fields, Checksum, Accumulated, Sum, NumberText;
    var body, body' := t[..|t| - 4], t[i := c][..|t| - 4];
    assert body' == body[i := c];
    SumReplaced(body, i, c);
    ChecksumIsSum(body);
    ChecksumIsSum(body');
    NumberTextInjective(Checksum(body), Checksum(body'), 3);
    assert t[i := c][|t| - 4..|t| - 1] == t[|t| - 4..|t| - 1];
  }

  // ---- reading a parameter ----

  /** validate_response_telegram_parameters. */
  function Validate(address: nat, parameter: nat, r: Reading): Result<()> {
    if r.0 != address || r.1 != parameter || r.2 in ["NO_DEF", "_RANGE", "_LOGIC"] then Err(DeviceError)
    else Ok(())
  }

  /** What read_cmd_helper makes of a reply. */
  function ReadReply(address: nat, parameter: nat, reply: string): Result<string> {
    var r :- Interpret(reply);
    var _ :- Validate(address, parameter, r);
    Ok(r.2)
  }

  /** Of whatever arrives, the driver takes as the answer exactly what reads as data of the address
      and the parameter asked for, and is none of the three error reports. */
  lemma OnlyTheAnswer(address: nat, parameter: nat, reply: string, data: string)
    ensures ReadReply(address, parameter, reply) == Ok(data)
            <==> Interpret(reply) == Ok((address, parameter, data))
                 && data != "NO_DEF" && data != "_RANGE" && data != "_LOGIC"
  {
    hide Interpret;
  }

  /** Main result: the driver reads what a gauge reports exactly when the report fits, is no
      error report, and has a checksum that the driver does not compute as negative. */
  lemma GenuineReportIsRead(address: nat, parameter: nat, data: string)
    ensures var body := Body(address, Describe, parameter, data);
            ReadReply(address, parameter, GenuineTelegram(body)) == Ok(data)
            <==> Fits(address, parameter, data) && data !in ["NO_DEF", "_RANGE", "_LOGIC"] && Checksum(body) >= 0
  {
    GenuineReading(address, parameter, data);
    OnlyTheAnswer(address, parameter, GenuineTelegram(Body(address, Describe, parameter, data)), data);
    hide Body, Checksum, ReadReply, Interpret, GenuineTelegram;
  }

  lemma GenuineReading(source: nat, about: nat, data: string)
    ensures var body := Body(source, Describe, about, data);
            Interpret(GenuineTelegram(body)) == Ok((source, about, data))
            <==> Fits(source, about, data) && Checksum(body) >= 0
    ensures var body := Body(source, Describe, about, data);
            Interpret(GenuineTelegram(body)).Ok? ==> Checksum(body) >= 0
  {
    var body := Body(source, Describe, about, data);
    hide Body, Checksum, Fields;
    GenuineIsAccepted(body);
    var tail := NumberText(GenuineChecksum(body), 3) + "\r";
    FieldsOfBody(source, Describe, about, data, tail);
    assert GenuineTelegram(body) == body + tail;
  }

  /** A report of another address or about another parameter is never taken for the answer. */
  lemma OthersAreRefused(address: nat, parameter: nat, source: nat, about: nat, data: string)
    requires Fits(source, about, data) && (source != address || about != parameter)
    ensures ReadReply(address, parameter, GenuineTelegram(Body(source, Describe, about, data))) == Err(DeviceError)
  {
    var body := Body(source, Describe, about, data);
    GenuineReading(source, about, data);
    GenuineIsAccepted(body);
    hide Body, Checksum, Fields, GenuineTelegram;
  }

  lemma TwoDigitsOfTwo()
    ensures NumberText(2, 2) + "=?" == "02=?"
  {
    assert Zeros(1) == "0" + Zeros(0);
  }

  // ---- the driver as an object ----

  /** A Pfeiffer device at the end of a serial line; `replies` is what it will send. */
  class PfeifferDevice {
    var semanticoss: string
    var cmdoss: string
    var written: seq<string>
    var replies: seq<Result<string>>

    constructor (replies: seq<Result<string>>)
      ensures semanticoss == cmdoss == "" && written == [] && this.replies == replies
    {
      semanticoss, cmdoss, written, this.replies := "", "", [], replies;
    }

    method CalculateChecksum(message: string) returns (text: string)
      ensures text == ChecksumText(message)
    {
      var checksum := 0;
      for i := 0 to |message|
        invariant checksum == Accumulated(message[..i])
      {
        assert message[..i + 1][..i] == message[..i];
        checksum := SignedChar(checksum) + SignedChar(Code(message[i]));
      }
      assert message[..|message|] == message;
      text := NumberText(Remainder(checksum), 3);
    }

    method Cmd(request: string) returns (reply: Result<string>)
      modifies this
      ensures semanticoss == old(semanticoss) && cmdoss == Telegram(request)
      ensures written == old(written) + [Telegram(request)]
      ensures old(replies) == [] ==> reply == Err(LinkError) && replies == []
      ensures old(replies) != [] ==> reply == old(replies)[0] && replies == old(replies)[1..]
    {
      cmdoss := "";
      cmdoss := cmdoss + request;
      var checksum := CalculateChecksum(request);
      cmdoss := cmdoss + checksum + "\r";
      written := written + [cmdoss];
      if replies == [] {
        return Err(LinkError);
      }
      reply := replies[0];
      replies := replies[1..];
    }

    /** A write needs data; a read asks with "=?" whatever data it is given. */
    method SemanticCommand(address: nat, parameter: nat, action: Action, data: Option<string>)
      returns (reply: Result<string>)
      modifies this
      ensures action.Describe? && data.None? ==>
                reply == Err(LogicError) && written == old(written) && replies == old(replies)
      ensures !(action.Describe? && data.None?) ==>
                var body := Body(address, action, parameter, if action.Read? then "=?" else data.value);
                && semanticoss == body && cmdoss == Telegram(body) && written == old(written) + [Telegram(body)]
                && (if old(replies) == [] then reply == Err(LinkError) && replies == []
                    else reply == old(replies)[0] && replies == old(replies)[1..])
    {
      TwoDigitsOfTwo();
      hide NumberText;
      semanticoss := "";
      semanticoss := semanticoss + NumberText(address, 3);
      semanticoss := semanticoss + NumberText(ActionCode(action), 2);
      semanticoss := semanticoss + NumberText(parameter, 3);
      match action {
        case Read =>
          semanticoss := semanticoss + "02=?";
        case Describe =>
          if data.None? {
            return Err(LogicError);
          }
          semanticoss := semanticoss + NumberText(|data.value|, 2) + data.value;
      }
      reply := Cmd(semanticoss);
    }

    method ReadCmdHelper(address: nat, parameter: nat) returns (r: Result<string>)
      modifies this
      ensures written == old(written) + [Telegram(Body(address, Read, parameter, "=?"))]
      ensures replies == if old(replies) == [] then [] else old(replies)[1..]
      ensures r == if old(replies) == [] then Err(LinkError)
                   else if old(replies)[0].Err? then old(replies)[0]
                   else ReadReply(address, parameter, old(replies)[0].value)
    {
      var reply := SemanticCommand(address, parameter, Read, None);
      if reply.Err? {
        return reply;
      }
      r := ReadReply(address, parameter, reply.value);
    }
  }
}
