/**
 The string primitives the front end leans on: white space, trim, split, decimal printing and
 parseInt.  Strings are sequences of characters; integers are unbounded.
 */
module Text {
  import opened Wrappers

  /** The characters matched by \s, which are also those that trim removes. */
  predicate IsSpace(c: char) {
    || '\t' <= c <= '\r' || c == ' ' || c == '\U{A0}' || c == '\U{1680}'
    || '\U{2000}' <= c <= '\U{200A}' || c == '\U{2028}' || c == '\U{2029}' || c == '\U{202F}'
    || c == '\U{205F}' || c == '\U{3000}' || c == '\U{FEFF}'
  }

  /** The same characters by their codes: ASCII white space, the Unicode spaces, line ends and the byte order mark. */
  lemma {:induction false} SpaceCodes(c: char)
    ensures IsSpace(c) <==>
            c as int in {9, 10, 11, 12, 13, 32, 0xA0, 0x1680, 0x2028, 0x2029, 0x202F, 0x205F, 0x3000, 0xFEFF}
            || 0x2000 <= c as int <= 0x200A
  {}

  predicate NoSpace(s: string) {
    forall i | 0 <= i < |s| :: !IsSpace(s[i])
  }

  function TrimStart(s: string): string {
    if s != "" && IsSpace(s[0]) then TrimStart(s[1..]) else s
  }

  function TrimEnd(s: string): string {
    if s != "" && IsSpace(s[|s| - 1]) then TrimEnd(s[..|s| - 1]) else s
  }

  function Trim(s: string): string {
    TrimEnd(TrimStart(s))
  }

  predicate IsCapital(c: char) {
    'A' <= c <= 'Z'
  }

  /** Lower-casing of ASCII letters, which is all that bytes.lower() does. */
  function LowerChar(c: char): char {
    if IsCapital(c) then c - 'A' + 'a' else c
  }

  function Lower(s: string): string {
    seq(|s|, i requires 0 <= i < |s| => LowerChar(s[i]))
  }

  /** In terms of ASCII codes: 65 to 90 become 97 to 122, nothing else changes. */
  lemma {:induction false} LowerCodes(s: string)
    ensures |Lower(s)| == |s|
    ensures forall i | 0 <= i < |s| :: Lower(s)[i] as int == s[i] as int + if 65 <= s[i] as int <= 90 then 32 else 0
  {}

  /** Trimming leaves nothing iff there is only white space. */
  lemma {:induction false} TrimEmptyIff(s: string)
    ensures Trim(s) == "" <==> forall i | 0 <= i < |s| :: IsSpace(s[i])
  {
    if s == "" || !IsSpace(s[0]) {
      TrimEndKeepsFirst(s);
    } else {
      TrimEmptyIff(s[1..]);
      assert forall i | 0 < i < |s| :: s[i] == s[1..][i - 1];
    }
  }

  lemma {:induction false} TrimEndKeepsFirst(s: string)
    requires s != "" ==> !IsSpace(s[0])
    ensures s != "" ==> TrimEnd(s) != "" && TrimEnd(s)[0] == s[0]
  {
    if s == "" || !IsSpace(s[|s| - 1]) {
    } else {
      TrimEndKeepsFirst(s[..|s| - 1]);
    }
  }

  /** The longest prefix without white space. */
  function Word(s: string): string {
    if s == "" || IsSpace(s[0]) then "" else [s[0]] + Word(s[1..])
  }

  lemma {:induction false} WordFits(s: string)
    ensures |Word(s)| <= |s|
    ensures |Word(s)| < |s| ==> IsSpace(s[|Word(s)|])
  {
    if s == "" || IsSpace(s[0]) {
    } else {
      WordFits(s[1..]);
    }
  }

  lemma {:induction false} TrimStartShrinks(s: string)
    ensures |TrimStart(s)| <= |s|
    ensures s != "" && IsSpace(s[0]) ==> |TrimStart(s)| < |s|
  {
    if s == "" {
    } else {
      TrimStartShrinks(s[1..]);
    }
  }

  /** s.split(/\s+/) */
  function SplitSpaces(s: string): seq<string>
    decreases |s|
  {
    WordFits(s);
    if |Word(s)| == |s| then [s]
    else
      var rest := s[|Word(s)|..];
      TrimStartShrinks(rest);
      [Word(s)] + SplitSpaces(TrimStart(rest))
  }

  /** s.split(sep) for a one-character separator */
  function SplitOn(s: string, sep: char): (parts: seq<string>)
    ensures parts != []
  {
    if s == "" then [""]
    else
      var rest := SplitOn(s[1..], sep);
      if s[0] == sep then [""] + rest else [[s[0]] + rest[0]] + rest[1..]
  }

  lemma {:induction false} WordOf(w: string, rest: string)
    requires NoSpace(w) && (rest == "" || IsSpace(rest[0]))
    ensures Word(w + rest) == w
  {
    if w == "" {
      assert w + rest == rest;
    } else {
      assert (w + rest)[1..] == w[1..] + rest;
      WordOf(w[1..], rest);
    }
  }

  lemma {:induction false} SplitOneWord(w: string)
    requires NoSpace(w)
    ensures SplitSpaces(w) == [w]
  {
    WordOf(w, "");
    assert w + "" == w;
  }

  lemma {:induction false} SplitFirstWord(w: string, rest: string)
    requires NoSpace(w) && (rest == "" || !IsSpace(rest[0]))
    ensures SplitSpaces(w + " " + rest) == [w] + SplitSpaces(rest)
  {
    var s := w + " " + rest;
    assert s == w + (" " + rest);
    WordOf(w, " " + rest);
    assert s[|w|..] == " " + rest;
    assert (" " + rest)[1..] == rest;
    assert TrimStart(" " + rest) == TrimStart(rest) == rest;
  }

  lemma {:induction false} SplitOnPrefix(a: string, rest: string, sep: char)
    requires sep !in a
    ensures SplitOn(a + [sep] + rest, sep) == [a] + SplitOn(rest, sep)
  {
    if a == "" {
      assert a + [sep] + rest == [sep] + rest;
    } else {
      assert (a + [sep] + rest)[1..] == a[1..] + [sep] + rest;
      SplitOnPrefix(a[1..], rest, sep);
      assert SplitOn(a[1..] + [sep] + rest, sep)[1..] == SplitOn(rest, sep);
      assert [a[0]] + a[1..] == a;
    }
  }

  lemma {:induction false} SplitOnNone(a: string, sep: char)
    requires sep !in a
    ensures SplitOn(a, sep) == [a]
  {
    if a == "" {
    } else {
      SplitOnNone(a[1..], sep);
      assert [a[0]] + a[1..] == a;
    }
  }

  // ---- Numbers ------------------------------------------------------------------------------

  function DigitChar(d: nat): char
    requires d < 10
  {
    '0' + d as char
  }

  predicate IsDigit(c: char) {
    '0' <= c <= '9'
  }

  predicate AllDigits(s: string) {
    forall i | 0 <= i < |s| :: IsDigit(s[i])
  }

  function Decimal(n: nat): string {
    if n < 10 then [DigitChar(n)] else Decimal(n / 10) + [DigitChar(n % 10)]
  }

  function IntToString(n: int): string {
    if n < 0 then "-" + Decimal(-n) else Decimal(n)
  }

  /** The value of a digit in bases up to 16, as parseInt reads it. */
  function DigitValue(c: char): Option<nat> {
    if '0' <= c <= '9' then Some((c - '0') as nat)
    else if 'a' <= c <= 'f' then Some((c - 'a') as nat + 10)
    else if 'A' <= c <= 'F' then Some((c - 'A') as nat + 10)
    else None
  }

  predicate IsDigitOf(c: char, base: nat) {
    DigitValue(c).Some? && DigitValue(c).value < base
  }

  function DigitPrefix(s: string, base: nat): string {
    if s == "" || !IsDigitOf(s[0], base) then "" else [s[0]] + DigitPrefix(s[1..], base)
  }

  function ValueOf(s: string, base: nat): nat {
    if s == "" then 0
    else ValueOf(s[..|s| - 1], base) * base + DigitValue(s[|s| - 1]).GetOr(0)
  }

  function ParseNat(s: string, base: nat): Option<int> {
    var ds := DigitPrefix(s, base);
    if ds == "" then None else Some(ValueOf(ds, base))
  }

  /** parseInt(s) without a radix: None stands for NaN. */
  function ParseInt(s: string): Option<int> {
    var t := TrimStart(s);
    var negative := t != "" && t[0] == '-';
    var u := if t != "" && (t[0] == '-' || t[0] == '+') then t[1..] else t;
    var magnitude :=
      if |u| >= 2 && u[0] == '0' && (u[1] == 'x' || u[1] == 'X') then ParseNat(u[2..], 16) else ParseNat(u, 10);
    if magnitude.Some? && negative then Some(-magnitude.value) else magnitude
  }

  /** s.padStart(2, '0') */
  function PadStart2(s: string): string {
    if |s| == 0 then "00" else if |s| == 1 then "0" + s else s
  }

  lemma {:induction false} DecimalDigits(n: nat)
    ensures Decimal(n) != "" && AllDigits(Decimal(n)) && ValueOf(Decimal(n), 10) == n
    ensures n > 0 ==> Decimal(n)[0] != '0'
  {
    if n >= 10 {
      DecimalDigits(n / 10);
      assert Decimal(n)[..|Decimal(n)| - 1] == Decimal(n / 10);
    } else {
      assert Decimal(n)[..0] == "";
    }
  }

  lemma {:induction false} DigitPrefixAll(s: string)
    requires AllDigits(s)
    ensures DigitPrefix(s, 10) == s
  {
    if s == "" {
    } else {
      DigitPrefixAll(s[1..]);
    }
  }

  lemma {:induction false} LeadingZero(s: string)
    requires AllDigits(s)
    ensures ValueOf("0" + s, 10) == ValueOf(s, 10)
  {
    if s == "" {
      assert ("0" + s)[..0] == "";
    } else {
      var k := |s| - 1;
      assert ("0" + s)[..|s|] == "0" + s[..k];
      LeadingZero(s[..k]);
    }
  }

  lemma {:induction false} ParseDigits(ds: string)
    requires ds != "" && AllDigits(ds)
    ensures ParseInt(ds) == Some(ValueOf(ds, 10))
  {
    DigitPrefixAll(ds);
    assert IsDigit(ds[0]);
    assert TrimStart(ds) == ds;
    assert |ds| >= 2 ==> IsDigit(ds[1]);
  }

  lemma {:induction false} ParseNegative(ds: string)
    requires ds != "" && AllDigits(ds)
    ensures ParseInt("-" + ds) == Some(0 - ValueOf(ds, 10))
  {
    DigitPrefixAll(ds);
    var s := "-" + ds;
    assert TrimStart(s) == s;
    assert s[1..] == ds;
    assert |ds| >= 2 ==> IsDigit(ds[1]);
  }

  /** parseInt undoes both plain and padded decimal printing. */
  lemma {:induction false} ParsePrintedInt(n: int)
    ensures ParseInt(IntToString(n)) == Some(n)
    ensures ParseInt(PadStart2(IntToString(n))) == Some(n)
  {
    var ds := Decimal(if n < 0 then -n else n);
    DecimalDigits(if n < 0 then -n else n);
    hide ParseInt, ValueOf;
    if n < 0 {
      ParseNegative(ds);
    } else {
      ParseDigits(ds);
      if |ds| == 1 {
        LeadingZero(ds);
        ParseDigits("0" + ds);
      }
    }
  }

  lemma {:induction false} DigitPrefixOf(digits: string, rest: string)
    requires AllDigits(digits) && (rest == "" || !IsDigit(rest[0]))
    ensures DigitPrefix(digits + rest, 10) == digits
  {
    if digits == "" {
      assert digits + rest == rest;
    } else {
      DigitPrefixOf(digits[1..], rest);
      assert (digits + rest)[1..] == digits[1..] + rest;
    }
  }

  lemma {:induction false} TrimStartSkips(spaces: string, s: string)
    requires (forall c | c in spaces :: IsSpace(c)) && (s == "" || !IsSpace(s[0]))
    ensures TrimStart(spaces + s) == s
  {
    if spaces == "" {
      assert spaces + s == s;
    } else {
      TrimStartSkips(spaces[1..], s);
      assert (spaces + s)[1..] == spaces[1..] + s;
    }
  }

  lemma {:induction false} NumberReads(digits: string, rest: string)
    requires digits != "" && AllDigits(digits) && (rest == "" || !IsDigit(rest[0]))
    requires digits != "0" || rest == "" || rest[0] !in {'x', 'X'}
    ensures var number := digits + rest;
            && ParseNat(number, 10) == Some(ValueOf(digits, 10)) && IsDigit(number[0])
            && !(|number| >= 2 && number[0] == '0' && (number[1] == 'x' || number[1] == 'X'))
  {
    DigitPrefixOf(digits, rest);
    hide ValueOf, DigitPrefix;
    assert |digits| >= 2 ==> IsDigit(digits[1]);
  }

  /** parseInt skips white space, takes a sign, and reads digits up to the first other character. */
  lemma {:induction false} ParseIntReads(spaces: string, sign: string, digits: string, rest: string)
    requires forall c | c in spaces :: IsSpace(c)
    requires sign in {"", "+", "-"} && digits != "" && AllDigits(digits) && (rest == "" || !IsDigit(rest[0]))
    requires digits != "0" || rest == "" || rest[0] !in {'x', 'X'}
    ensures ParseInt(spaces + sign + digits + rest) == Some(if sign == "-" then 0 - ValueOf(digits, 10) else ValueOf(digits, 10))
  {
    var number := digits + rest;
    NumberReads(digits, rest);
    var whole := spaces + sign + digits + rest;
    assert whole == spaces + (sign + number);
    TrimStartSkips(spaces, sign + number);
    assert (sign + number)[|sign|..] == number;
    hide TrimStart, ParseNat, ValueOf, IsSpace, AllDigits;
    ParseTrimmed(whole, sign, number);
  }

  lemma {:induction false} ParseTrimmed(whole: string, sign: string, number: string)
    requires TrimStart(whole) == sign + number && sign in {"", "+", "-"}
    requires number != "" && IsDigit(number[0])
    requires !(|number| >= 2 && number[0] == '0' && (number[1] == 'x' || number[1] == 'X'))
    ensures var n := ParseNat(number, 10);
            ParseInt(whole) == if n.Some? && sign == "-" then Some(0 - n.value) else n
  {
    hide TrimStart, ParseNat;
    assert (sign + number)[|sign|..] == number;
    assert "" + number == number;
  }

  /** Text that has no digit after its white space and sign is not a number. */
  lemma {:induction false} NotANumber(spaces: string, sign: string, rest: string)
    requires forall c | c in spaces :: IsSpace(c)
    requires sign in {"", "+", "-"} && (rest == "" || (!IsDigit(rest[0]) && !IsSpace(rest[0]) && rest[0] !in {'+', '-'}))
    ensures ParseInt(spaces + sign + rest) == None
  {
    var tail := sign + rest;
    assert spaces + sign + rest == spaces + tail;
    TrimStartSkips(spaces, tail);
    assert tail[|sign|..] == rest;
    assert "" + rest == rest;
    assert DigitPrefix(rest, 10) == "";
    hide TrimStart, ValueOf, IsSpace;
  }

  /** Hexadecimal numbers are read as such, in both cases and with a sign. */
  lemma {:induction false} HexadecimalReads()
    ensures ParseInt("0x1f") == Some(31) && ParseInt("-0XA0 ") == Some(-160) && ParseInt("0x") == None && ParseInt("0xg") == None
  {
    hide IsSpace;
    HexOf("1f", "", 31);
    HexOf("A0", " ", 160);
    assert ParseInt("0x1f") == Some(31) by {
      SpaceCodes('0');
      assert "0x1f"[2..] == "1f" + "";
    }
    assert ParseInt("-0XA0 ") == Some(-160) by {
      SpaceCodes('-');
      assert "-0XA0 "[1..] == "0XA0 " && "0XA0 "[2..] == "A0" + " ";
    }
    SpaceCodes('0');
    assert "0x"[2..] == "" && "0xg"[2..] == "g";
  }

  lemma {:induction false} HexOf(digits: string, rest: string, n: nat)
    requires (digits == "1f" && rest == "" && n == 31) || (digits == "A0" && rest == " " && n == 160)
    ensures ParseNat(digits + rest, 16) == Some(n)
  {
    assert digits == [digits[0], digits[1]];
    assert (digits + rest)[1..] == [digits[1]] + rest;
    assert ([digits[1]] + rest)[1..] == rest;
    assert DigitPrefix(rest, 16) == "";
    assert DigitPrefix([digits[1]] + rest, 16) == [digits[1]];
    assert DigitPrefix(digits + rest, 16) == digits;
    assert digits[..1] == [digits[0]] && [digits[0]][..0] == "";
    assert ValueOf([digits[0]], 16) == DigitValue(digits[0]).value;
  }

  /** Plain decimal notation: "0", or an optional minus sign, a digit 1-9 and further digits. */
  predicate IsPlainDecimal(s: string) {
    s == "0" || IsPositiveDecimal(s) || (s != "" && s[0] == '-' && IsPositiveDecimal(s[1..]))
  }

  predicate IsPositiveDecimal(s: string) {
    s != "" && '1' <= s[0] <= '9' && AllDigits(s)
  }

  lemma {:induction false} PositiveDecimal(s: string)
    requires IsPositiveDecimal(s)
    ensures ValueOf(s, 10) > 0 && Decimal(ValueOf(s, 10)) == s
  {
    var init, d := s[..|s| - 1], DigitValue(s[|s| - 1]).value;
    assert DigitChar(d) == s[|s| - 1];
    if |s| == 1 {
      assert init == "" && s == [s[0]];
    } else {
      PositiveDecimal(init);
      assert ValueOf(s, 10) / 10 == ValueOf(init, 10) && ValueOf(s, 10) % 10 == d;
      assert s == init + [s[|s| - 1]];
    }
  }

  lemma {:induction false} PlainDecimalIsPrinted(s: string)
    requires IsPlainDecimal(s)
    ensures ParseInt(s).Some? && IntToString(ParseInt(s).value) == s
  {
    hide ParseInt;
    if s == "0" {
      ParsePrintedInt(0);
    } else if IsPositiveDecimal(s) {
      PositiveDecimal(s);
      ParseDigits(s);
    } else {
      PositiveDecimal(s[1..]);
      ParseNegative(s[1..]);
      assert s == "-" + s[1..];
    }
  }

  /** Exactly the plain decimals are printed back as they were read. */
  lemma {:induction false} PlainDecimalIff(s: string)
    ensures IsPlainDecimal(s) <==> ParseInt(s).Some? && IntToString(ParseInt(s).value) == s
  {
    hide ParseInt;
    if IsPlainDecimal(s) {
      PlainDecimalIsPrinted(s);
    } else if ParseInt(s).Some? {
      var n := ParseInt(s).value;
      DecimalDigits(if n < 0 then -n else n);
      assert n < 0 ==> IntToString(n)[1..] == Decimal(-n);
    }
  }

  lemma {:induction false} DigitsAreAWord(ds: string)
    requires AllDigits(ds)
    ensures NoSpace(ds) && ':' !in ds
  {}

  lemma {:induction false} PrintedIntIsAWord(n: int)
    ensures IntToString(n) != "" && NoSpace(IntToString(n)) && IntToString(n)[0] != '*'
    ensures ':' !in PadStart2(IntToString(n)) && PadStart2(IntToString(n)) != ""
  {
    var ds := Decimal(if n < 0 then -n else n);
    DecimalDigits(if n < 0 then -n else n);
    DigitsAreAWord(ds);
    if n < 0 {
      assert NoSpace("-" + ds);
    } else {
      assert IsDigit(ds[0]);
    }
  }
}
