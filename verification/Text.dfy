/** Strings as sequences of characters: ASCII case folding, lines, and decimal digit strings. */
module Text {

  // ---------------------------------------------------------------- case folding

  function LowerChar(c: char): char {
    if 'A' <= c <= 'Z' then c - 'A' + 'a' else c
  }

  /** `toLowerCase` on the ASCII strings (hex values, identifiers) that reach it in the modelled code. */
  function Lower(s: string): (r: string)
    ensures |r| == |s|
    ensures forall i :: 0 <= i < |s| ==> r[i] == LowerChar(s[i])
  {
    seq(|s|, i requires 0 <= i < |s| => LowerChar(s[i]))
  }

  /** Only capital letters change, each to the letter 32 code points above it. */
  lemma LowerIs(s: string, i: nat)
    requires i < |s|
    ensures if 65 <= s[i] as int <= 90 then Lower(s)[i] as int == s[i] as int + 32 else Lower(s)[i] == s[i]
  {
  }

  lemma LowerIdempotent(s: string)
    ensures Lower(Lower(s)) == Lower(s)
  {
  }

  predicate IsDigit(c: char) {
    '0' <= c <= '9'
  }

  predicate IsHexDigit(c: char) {
    IsDigit(c) || 'a' <= c <= 'f' || 'A' <= c <= 'F'
  }

  predicate AllDigits(s: string) {
    forall i :: 0 <= i < |s| ==> IsDigit(s[i])
  }

  predicate AllHex(s: string) {
    forall i :: 0 <= i < |s| ==> IsHexDigit(s[i])
  }

  /** A `0x`-prefixed hexadecimal string with exactly `digits` digits. */
  predicate IsHexOf(s: string, digits: nat) {
    |s| == digits + 2 && s[..2] == "0x" && AllHex(s[2..])
  }

  /** Digits 0-9, A-F and a-f as code points. */
  ghost predicate HexCode(c: int) {
    48 <= c <= 57 || 65 <= c <= 70 || 97 <= c <= 102
  }

  lemma HexOfIs(s: string, digits: nat)
    ensures IsHexOf(s, digits) <==>
              && |s| == digits + 2 && s[0] as int == 48 && s[1] as int == 120
              && forall i :: 2 <= i < |s| ==> HexCode(s[i] as int)
  {
    if |s| == digits + 2 {
      assert s[..2] == "0x" <==> s[0] == '0' && s[1] == 'x';
      assert forall i :: 2 <= i < |s| ==> s[i] == s[2..][i - 2];
    }
  }

  // ---------------------------------------------------------------- lines

  /** `s.split(separator)` for a one-character separator. */
  function Split(s: string, separator: char): (parts: seq<string>)
    ensures |parts| > 0
  {
    if s == "" then [""]
    else
      var rest := Split(s[1..], separator);
      if s[0] == separator then [""] + rest else [[s[0]] + rest[0]] + rest[1..]
  }

  /** `parts.join(separator)`. */
  function Join(parts: seq<string>, separator: char): string
    requires |parts| > 0
  {
    if |parts| == 1 then parts[0]
    else parts[0] + [separator] + Join(parts[1..], separator)
  }

  lemma {:induction false} SplitFirst(head: string, tail: string, separator: char)
    requires separator !in head
    ensures Split(head, separator) == [head]
    ensures Split(head + [separator] + tail, separator) == [head] + Split(tail, separator)
  {
    if head == "" {
      assert head + [separator] + tail == [separator] + tail;
      assert ([separator] + tail)[1..] == tail;
    } else {
      SplitFirst(head[1..], tail, separator);
      var whole := head + [separator] + tail;
      assert whole[1..] == head[1..] + [separator] + tail;
      assert [head[0]] + head[1..] == head;
    }
  }

  /** Splitting joined lines gives the lines back, as long as none of them holds the separator. */
  lemma {:induction false} SplitJoin(parts: seq<string>, separator: char)
    requires |parts| > 0
    requires forall i :: 0 <= i < |parts| ==> separator !in parts[i]
    ensures Split(Join(parts, separator), separator) == parts
  {
    if |parts| == 1 {
      SplitFirst(parts[0], "", separator);
    } else {
      SplitJoin(parts[1..], separator);
      SplitFirst(parts[0], Join(parts[1..], separator), separator);
    }
  }

  // ---------------------------------------------------------------- UTF-8

  function Utf8Bytes(c: char): nat {
    if c as int < 0x80 then 1 else if c as int < 0x800 then 2 else if c as int < 0x10000 then 3 else 4
  }

  /** One byte holds 7 bits of a character, two 11, three 16, and four the rest. */
  lemma Utf8BytesIs(c: char)
    ensures Utf8Bytes(c) == 1 <==> c as int < 128
    ensures Utf8Bytes(c) == 2 <==> 128 <= c as int < 2048
    ensures Utf8Bytes(c) == 3 <==> 2048 <= c as int < 65536
    ensures Utf8Bytes(c) == 4 <==> 65536 <= c as int
  {
  }

  function Utf8Length(s: string): nat {
    if s == "" then 0 else Utf8Bytes(s[0]) + Utf8Length(s[1..])
  }

  predicate IsAscii(s: string) {
    forall i :: 0 <= i < |s| ==> s[i] as int < 0x80
  }

  lemma {:induction false} Utf8LengthOfAscii(s: string)
    requires IsAscii(s)
    ensures Utf8Length(s) == |s|
  {
    if s != "" {
      Utf8LengthOfAscii(s[1..]);
    }
  }

  // ---------------------------------------------------------------- decimal digits

  function Pow10(n: nat): (p: nat)
    ensures p >= 1
  {
    if n == 0 then 1 else 10 * Pow10(n - 1)
  }

  lemma {:induction false} Pow10Grows(a: nat, b: nat)
    requires a <= b
    ensures Pow10(a) <= Pow10(b)
  {
    if a < b {
      Pow10Grows(a, b - 1);
    }
  }

  /** `n * 10^places`: `n` with that many zeros appended. */
  function Shift(n: nat, places: nat): nat {
    if places == 0 then n else 10 * Shift(n, places - 1)
  }

  lemma {:induction false} ShiftIsProduct(n: nat, places: nat)
    ensures Shift(n, places) == n * Pow10(places)
  {
    if places > 0 {
      ShiftIsProduct(n, places - 1);
      TenTimes(n, Pow10(places - 1));
    }
  }

  lemma TenTimes(n: nat, p: nat)
    ensures 10 * (n * p) == n * (10 * p)
  {
  }

  lemma {:induction false} ShiftAdd(n: nat, a: nat, b: nat)
    ensures Shift(n, a + b) == Shift(Shift(n, a), b)
  {
    if b > 0 {
      ShiftAdd(n, a, b - 1);
    }
  }

  lemma {:induction false} ShiftSum(m: nat, n: nat, places: nat)
    ensures Shift(m + n, places) == Shift(m, places) + Shift(n, places)
  {
    if places > 0 {
      ShiftSum(m, n, places - 1);
    }
  }

  lemma {:induction false} ShiftOrder(m: nat, n: nat, places: nat)
    ensures m < n ==> Shift(m, places) + Pow10(places) <= Shift(n, places)
    ensures Shift(m, places) == Shift(n, places) <==> m == n
    ensures Shift(0, places) == 0
  {
    if places > 0 {
      ShiftOrder(m, n, places - 1);
    }
  }

  function DigitValue(c: char): (v: nat)
    requires IsDigit(c)
    ensures v < 10
  {
    (c - '0') as nat
  }

  function DigitChar(v: nat): (c: char)
    requires v < 10
    ensures IsDigit(c) && DigitValue(c) == v
  {
    '0' + v as char
  }

  /** `BigInt(s)` of a string of decimal digits; the empty string counts as zero. */
  function BigInt(s: string): nat
    requires AllDigits(s)
  {
    if s == "" then 0 else BigInt(s[..|s| - 1]) * 10 + DigitValue(s[|s| - 1])
  }

  /** `n.toString()` in base ten. */
  function Digits(n: nat): (s: string)
    ensures |s| > 0 && AllDigits(s)
  {
    if n < 10 then [DigitChar(n)] else Digits(n / 10) + [DigitChar(n % 10)]
  }

  /** No superfluous leading zero: the form `(?:0|[1-9][0-9]*)`. */
  predicate IsCanonical(s: string) {
    |s| > 0 && AllDigits(s) && (|s| > 1 ==> s[0] != '0')
  }

  lemma {:induction false} ValueOfDigits(n: nat)
    ensures BigInt(Digits(n)) == n
    ensures IsCanonical(Digits(n))
    ensures n > 0 ==> Digits(n)[0] != '0'
  {
    if n >= 10 {
      ValueOfDigits(n / 10);
      var s := Digits(n);
      assert s[..|s| - 1] == Digits(n / 10);
    }
  }

  lemma {:induction false} DigitsOfValue(s: string)
    requires IsCanonical(s)
    ensures Digits(BigInt(s)) == s
  {
    var front := s[..|s| - 1];
    if |s| == 1 {
      assert front == "";
    } else {
      DigitsOfValue(front);
      CanonicalIsPositive(front);
      assert BigInt(s) / 10 == BigInt(front);
      assert s == front + [s[|s| - 1]];
    }
  }

  lemma {:induction false} CanonicalIsPositive(s: string)
    requires |s| > 0 && AllDigits(s) && s[0] != '0'
    ensures BigInt(s) >= Pow10(|s| - 1)
  {
    if |s| == 1 {
      assert s[..0] == "";
    } else {
      CanonicalIsPositive(s[..|s| - 1]);
    }
  }

  lemma {:induction false} ValueConcat(a: string, b: string)
    requires AllDigits(a) && AllDigits(b)
    ensures AllDigits(a + b) && BigInt(a + b) == Shift(BigInt(a), |b|) + BigInt(b)
  {
    if b == "" {
      assert a + b == a;
    } else {
      var front := b[..|b| - 1];
      ValueConcat(a, front);
      assert (a + b)[..|a + b| - 1] == a + front;
    }
  }

  lemma {:induction false} ValueBound(s: string)
    requires AllDigits(s)
    ensures BigInt(s) < Pow10(|s|)
  {
    if s != "" {
      ValueBound(s[..|s| - 1]);
    }
  }

  lemma SplitAgain(s: string, n: nat)
    requires n <= |s|
    ensures s[..n] + s[n..] == s && |s[..n]| == n && |s[n..]| == |s| - n
  {
  }

  lemma DigitsOfParts(s: string, n: nat)
    requires AllDigits(s) && n <= |s|
    ensures AllDigits(s[..n]) && AllDigits(s[n..])
  {
  }

  /** The value of a digit string from the values of two parts. */
  lemma ValueOfParts(s: string, n: nat)
    requires AllDigits(s) && n <= |s|
    ensures AllDigits(s[..n]) && AllDigits(s[n..]) && BigInt(s[n..]) < Pow10(|s| - n)
    ensures BigInt(s) == Shift(BigInt(s[..n]), |s| - n) + BigInt(s[n..])
  {
    SplitAgain(s, n);
    DigitsOfParts(s, n);
    ValueConcat(s[..n], s[n..]);
    ValueBound(s[n..]);
  }

  /** `c.repeat(n)`. */
  function Repeat(c: char, n: nat): (s: string)
    ensures |s| == n && forall i :: 0 <= i < n ==> s[i] == c
  {
    seq(n, _ => c)
  }

  lemma {:induction false} ValueOfZeros(n: nat)
    ensures BigInt(Repeat('0', n)) == 0
  {
    if n > 0 {
      ValueOfZeros(n - 1);
      assert Repeat('0', n)[..n - 1] == Repeat('0', n - 1);
    }
  }
}
