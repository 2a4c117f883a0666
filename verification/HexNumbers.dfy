/** Hexadecimal numbers as Python prints and reads them. */
module HexNumbers {
  import opened Options

  function Digit(d: nat): char
    requires d < 16
  {
    if d < 10 then '0' + d as char else 'a' + (d - 10) as char
  }

  /** `f"{n:x}"` */
  function ToHex(n: nat): (s: string)
    ensures s != []
  {
    if n < 16 then [Digit(n)] else ToHex(n / 16) + [Digit(n % 16)]
  }

  function Value(c: char): Option<nat> {
    if '0' <= c <= '9' then Some((c - '0') as nat)
    else if 'a' <= c <= 'f' then Some(10 + (c - 'a') as nat)
    else if 'A' <= c <= 'F' then Some(10 + (c - 'A') as nat)
    else None
  }

  /** Digits, with at most one underscore between two of them. */
  function Digits(s: string): Option<nat> {
    if |s| == 0 then None
    else
      var d := Value(s[|s| - 1]);
      if d.None? then None
      else if |s| == 1 then d
      else
        var rest := if s[|s| - 2] == '_' then s[..|s| - 2] else s[..|s| - 1];
        var h := Digits(rest);
        if h.None? then None else Some(16 * h.value + d.value)
  }

  /** An optional prefix, which an underscore may follow. */
  function Unsigned(s: string): Option<nat> {
    if |s| >= 2 && s[0] == '0' && (s[1] == 'x' || s[1] == 'X') then
      Digits(if |s| >= 3 && s[2] == '_' then s[3..] else s[2..])
    else Digits(s)
  }

  predicate Blank(c: char) {
    c == ' ' || '\t' <= c <= '\r' || '\U{1c}' <= c <= '\U{1f}'
  }

  function Stripped(s: string): string
    decreases |s|
  {
    if s == [] then s
    else if Blank(s[0]) then Stripped(s[1..])
    else if Blank(s[|s| - 1]) then Stripped(s[..|s| - 1])
    else s
  }

  /** `int(s, 16)`: blanks around it, a sign, a prefix and underscores are accepted. */
  function FromHex(text: string): Option<int> {
    var s := Stripped(text);
    if s != [] && (s[0] == '-' || s[0] == '+') then
      var n := Unsigned(s[1..]);
      var sign: int := if s[0] == '-' then -1 else 1;
      if n.None? then None else Some(sign * n.value)
    else
      var n := Unsigned(s);
      if n.None? then None else Some(n.value)
  }

  lemma {:induction false} HexDigits(n: nat)
    ensures Digits(ToHex(n)) == Some(n)
    ensures forall i :: 0 <= i < |ToHex(n)| ==> Value(ToHex(n)[i]).Some?
  {
    if n >= 16 {
      HexDigits(n / 16);
      var s := ToHex(n);
      assert s[..|s| - 1] == ToHex(n / 16);
      assert s[|s| - 2] != '_';
    }
  }

  lemma {:induction false} HexRoundTrip(n: nat)
    ensures FromHex(ToHex(n)) == Some(n) && '+' !in ToHex(n)
  {
    HexDigits(n);
    var s := ToHex(n);
    assert Value(s[0]).Some? && Value(s[|s| - 1]).Some?;
    assert Stripped(s) == s;
    assert Unsigned(s) == Digits(s);
  }

  // ------------------------------------------------------------------------------ what is printed

  const ALPHABET := "0123456789abcdef"
  const CAPITALS := "0123456789ABCDEF"

  function Power16(k: nat): nat {
    if k == 0 then 1 else 16 * Power16(k - 1)
  }

  lemma {:induction false} DividedTwice(n: nat, k: nat)
    ensures Power16(k) > 0 && n / 16 / Power16(k) == n / Power16(k + 1)
  {
    PowerPositive(k);
    QuotientOfQuotient(n, Power16(k));
  }

  lemma {:induction false} QuotientOfQuotient(n: nat, p: nat)
    requires p > 0
    ensures n / 16 / p == n / (16 * p)
  {
    var q, r := n / 16, n % 16;
    var a, b := q / p, q % p;
    Scaled(a, p);
    assert q == a * p + b;
    QuotientIs(n, 16 * p, a, 16 * b + r);
  }

  lemma {:induction false} Scaled(a: nat, p: nat)
    ensures a * (16 * p) == 16 * (a * p)
  {
  }

  lemma {:induction false} PowerPositive(k: nat)
    ensures Power16(k) > 0
  {
    if k > 0 {
      PowerPositive(k - 1);
    }
  }

  lemma {:induction false} QuotientIs(n: nat, d: nat, q: nat, r: nat)
    requires d > 0 && r < d && n == q * d + r
    ensures n / d == q
  {
    var e := n / d - q;
    assert n == (n / d) * d + n % d;
    assert e * d == r - n % d;
    if e != 0 {
      MultipleApart(e, d);
    }
  }

  lemma {:induction false} MultipleApart(e: int, d: int)
    requires d > 0 && e != 0
    ensures e * d >= d || e * d <= 0 - d
  {
  }

  /** The k-th digit from the right is that of the k-th power of sixteen, in small letters, and there is no
      leading zero but for zero itself. */
  lemma {:induction false} HexDigit(n: nat, k: nat)
    requires k < |ToHex(n)|
    ensures Power16(k) > 0 && ToHex(n)[|ToHex(n)| - 1 - k] == ALPHABET[n / Power16(k) % 16]
    ensures n > 0 ==> ToHex(n)[0] != '0'
  {
    DigitIs(n % 16);
    if n >= 16 {
      HexDigit(n / 16, if k == 0 then 0 else k - 1);
      if k > 0 {
        DividedTwice(n, k - 1);
      }
    } else {
      DigitIs(n);
    }
  }

  lemma {:induction false} DigitIs(d: nat)
    requires d < 16
    ensures Digit(d) == ALPHABET[d] && (Digit(d) == '0' <==> d == 0)
  {
  }

  // --------------------------------------------------------------------------------- what is read

  lemma {:induction false} ValueIs(c: char, v: nat)
    ensures Value(c) == Some(v) <==> v < 16 && (c == ALPHABET[v] || c == CAPITALS[v])
  {
  }

  lemma {:induction false} BlankIs(c: char)
    ensures Blank(c) <==> c in {' ', '\t', '\n', '\U{b}', '\U{c}', '\r', '\U{1c}', '\U{1d}', '\U{1e}', '\U{1f}'}
  {
  }

  predicate IsDigit(c: char) {
    Value(c).Some?
  }

  /** Digits and single underscores between them. */
  predicate Numeral(s: string) {
    && s != [] && IsDigit(s[0]) && IsDigit(s[|s| - 1])
    && (forall i :: 0 <= i < |s| ==> IsDigit(s[i]) || s[i] == '_')
    && (forall i :: 0 <= i < |s| - 1 ==> IsDigit(s[i]) || IsDigit(s[i + 1]))
  }

  /** Exactly the numerals are read. */
  lemma {:induction false} DigitsIff(s: string)
    ensures Digits(s).Some? <==> Numeral(s)
    decreases |s|
  {
    if |s| >= 2 && IsDigit(s[|s| - 1]) {
      var rest := if s[|s| - 2] == '_' then s[..|s| - 2] else s[..|s| - 1];
      DigitsIff(rest);
      if s[|s| - 2] == '_' {
        BeforeUnderscore(s);
      }
    }
  }

  lemma {:induction false} BeforeUnderscore(s: string)
    requires |s| >= 2 && IsDigit(s[|s| - 1]) && s[|s| - 2] == '_'
    ensures Numeral(s) <==> Numeral(s[..|s| - 2])
  {
    var rest := s[..|s| - 2];
    if |s| >= 3 {
      var i := |s| - 3;
      assert s[i + 1] == '_' && rest[|rest| - 1] == s[i];
    }
  }

  /** One more digit, after an underscore or not, adds to sixteen times the number. */
  lemma {:induction false} DigitsAppend(s: string, c: char)
    requires IsDigit(c)
    ensures Digits([c]) == Value(c)
    ensures Digits(s).Some? ==>
              Digits(s + [c]) == Digits(s + "_" + [c]) == Some(16 * Digits(s).value + Value(c).value)
  {
    if Digits(s).Some? {
      DigitsIff(s);
      var t, u := s + [c], s + "_" + [c];
      assert t[|t| - 2] == s[|s| - 1] && t[..|t| - 1] == s;
      assert u[|u| - 2] == '_' && u[..|u| - 2] == s;
    }
  }

  predicate AllBlank(s: string) {
    forall i :: 0 <= i < |s| ==> Blank(s[i])
  }

  /** No prefix, or "0x", "0X", "0x_" or "0X_". */
  predicate IsPrefix(p: string) {
    || p == ""
    || (2 <= |p| <= 3 && p[0] == '0' && (p[1] == 'x' || p[1] == 'X') && (|p| == 3 ==> p[2] == '_'))
  }

  predicate IsSign(sign: string) {
    sign == "" || sign == "+" || sign == "-"
  }

  /** A text is a numeral with an optional prefix and sign and with blanks around it. */
  ghost predicate Written(text: string, before: string, sign: string, prefix: string, digits: string, after: string) {
    && text == before + (sign + (prefix + digits)) + after
    && AllBlank(before) && AllBlank(after) && IsSign(sign) && IsPrefix(prefix) && Numeral(digits)
  }

  lemma {:induction false} StrippedIs(before: string, s: string, after: string)
    requires AllBlank(before) && AllBlank(after) && s != [] && !Blank(s[0]) && !Blank(s[|s| - 1])
    ensures Stripped(before + s + after) == s
    decreases |before| + |after|
  {
    var text := before + s + after;
    if before != [] {
      assert text[0] == before[0] && text[1..] == before[1..] + s + after;
      StrippedIs(before[1..], s, after);
    } else if after != [] {
      assert text[0] == s[0] && text[|text| - 1] == after[|after| - 1];
      assert text[..|text| - 1] == before + s + after[..|after| - 1];
      StrippedIs(before, s, after[..|after| - 1]);
    } else {
      assert text == s;
    }
  }

  lemma {:induction false} StrippedParts(text: string) returns (before: string, after: string)
    ensures text == before + Stripped(text) + after && AllBlank(before) && AllBlank(after)
    decreases |text|
  {
    before, after := [], [];
    if text != [] {
      if Blank(text[0]) {
        before, after := StrippedParts(text[1..]);
        before := [text[0]] + before;
      } else if Blank(text[|text| - 1]) {
        before, after := StrippedParts(text[..|text| - 1]);
        after := after + [text[|text| - 1]];
      }
    }
  }

  lemma {:induction false} UnsignedIs(prefix: string, digits: string)
    requires IsPrefix(prefix) && Numeral(digits)
    ensures Unsigned(prefix + digits) == Digits(digits)
  {
    var s := prefix + digits;
    if prefix == "" {
      assert s == digits && (|s| >= 2 ==> IsDigit(s[1]) || s[1] == '_');
    } else if |prefix| == 2 {
      assert s[2] == digits[0] && s[2..] == digits;
    } else {
      assert s[3..] == digits;
    }
  }

  lemma {:induction false} UnsignedParts(s: string) returns (prefix: string, digits: string)
    requires Unsigned(s).Some?
    ensures IsPrefix(prefix) && Numeral(digits) && s == prefix + digits
  {
    var prefixed := |s| >= 2 && s[0] == '0' && (s[1] == 'x' || s[1] == 'X');
    var k := if !prefixed then 0 else if |s| >= 3 && s[2] == '_' then 3 else 2;
    prefix, digits := s[..k], s[k..];
    assert digits == if k == 0 then s else s[k..];
    DigitsIff(digits);
  }

  /** `int(text, 16)` reads every text that is a numeral, with a prefix "0x" or "0X", which an underscore
      may follow, or without one, a sign or none, and blanks around it; and it reads that number. */
  lemma {:induction false} FromHexWritten(text: string, before: string, sign: string, prefix: string, digits: string,
                                          after: string)
    requires Written(text, before, sign, prefix, digits, after)
    ensures Digits(digits).Some?
    ensures FromHex(text) == Some(if sign == "-" then 0 - Digits(digits).value else Digits(digits).value)
  {
    var body := prefix + digits;
    DigitsIff(digits);
    UnsignedIs(prefix, digits);
    FirstChar(prefix, digits);
    assert body[|body| - 1] == digits[|digits| - 1];
    SurroundedIs(before, sign, body, after);
  }

  lemma {:induction false} SurroundedIs(before: string, sign: string, body: string, after: string)
    requires AllBlank(before) && AllBlank(after) && IsSign(sign)
    requires body != [] && IsDigit(body[0]) && IsDigit(body[|body| - 1]) && Unsigned(body).Some?
    ensures FromHex(before + (sign + body) + after) ==
            Some(if sign == "-" then 0 - Unsigned(body).value else Unsigned(body).value)
  {
    var s := sign + body;
    assert s[|s| - 1] == body[|body| - 1] && (sign != "" ==> s[0] == sign[0]);
    StrippedIs(before, s, after);
    SignedIs(sign, body, before + s + after);
  }

  lemma {:induction false} SignedIs(sign: string, body: string, text: string)
    requires IsSign(sign) && body != [] && IsDigit(body[0]) && Unsigned(body).Some? && Stripped(text) == sign + body
    ensures FromHex(text) == Some(if sign == "-" then 0 - Unsigned(body).value else Unsigned(body).value)
  {
    assert sign == "" ==> sign + body == body;
    assert sign != "" ==> (sign + body)[1..] == body && (sign + body)[0] == sign[0];
  }

  lemma {:induction false} FirstChar(prefix: string, digits: string)
    requires IsPrefix(prefix) && Numeral(digits)
    ensures IsDigit((prefix + digits)[0])
  {
    if prefix == "" {
      assert (prefix + digits)[0] == digits[0];
    } else {
      assert prefix[0] == '0';
    }
  }

  /** It reads nothing else. */
  lemma {:induction false} FromHexParts(text: string)
    returns (before: string, sign: string, prefix: string, digits: string, after: string)
    requires FromHex(text).Some?
    ensures Written(text, before, sign, prefix, digits, after)
  {
    before, after := StrippedParts(text);
    var s := Stripped(text);
    if s != [] && (s[0] == '-' || s[0] == '+') {
      sign := [s[0]];
      prefix, digits := UnsignedParts(s[1..]);
      assert s == sign + (prefix + digits);
    } else {
      sign := "";
      prefix, digits := UnsignedParts(s);
      assert s == sign + (prefix + digits);
    }
  }
}
