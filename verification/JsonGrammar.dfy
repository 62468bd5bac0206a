/**
 * The grammar of JSON texts (RFC 8259) as a relation between texts and values, and the proof that the parser decides it. The
 * relation leaves open how far white space and numbers extend; the parser always takes the longest.
 */
module JsonGrammar {
  import opened Wrappers
  import opened Text
  import opened Json

  // ---------------------------------------------------------------- white space

  /** Section 2: space, tab, line feed and carriage return. */
  ghost predicate IsWs(c: char) {
    c as int in {0x20, 0x09, 0x0A, 0x0D}
  }

  /** `s` is white space, possibly none, in front of `t`. */
  ghost predicate Spaces(s: string, t: string)
    decreases |s|
  {
    s == t || (s != "" && IsWs(s[0]) && Spaces(s[1..], t))
  }

  lemma {:induction false} SkipsAll(s: string)
    ensures Spaces(s, SkipSpace(s))
    ensures SkipSpace(s) == "" || !IsWs(SkipSpace(s)[0])
  {
    if s != "" && IsWs(s[0]) {
      SkipsAll(s[1..]);
    }
  }

  lemma {:induction false} SkipsInFront(s: string, t: string)
    requires Spaces(s, t)
    ensures SkipSpace(s) == SkipSpace(t)
    decreases |s|
  {
    if s != t {
      SkipsInFront(s[1..], t);
    }
  }

  lemma SkipsTo(s: string, t: string)
    requires Spaces(s, t) && t != "" && !IsWs(t[0])
    ensures SkipSpace(s) == t
  {
    SkipsInFront(s, t);
  }

  // ---------------------------------------------------------------- strings

  /** The value of a hexadecimal digit of either case, or -1. */
  ghost function HexOf(c: int): int {
    if 48 <= c <= 57 then c - 48 else if 65 <= c <= 70 then c - 55 else if 97 <= c <= 102 then c - 87 else -1
  }

  /** The number in four hexadecimal digits at position `k`, or -1. */
  ghost function Hex4At(s: string, k: nat): int {
    if k + 4 > |s| then -1
    else
      var a, b, c, d := HexOf(s[k] as int), HexOf(s[k + 1] as int), HexOf(s[k + 2] as int), HexOf(s[k + 3] as int);
      if a < 0 || b < 0 || c < 0 || d < 0 then -1 else 4096 * a + 256 * b + 16 * c + d
  }

  /** The two-character escapes of section 7, after the backslash. */
  ghost predicate IsShort(name: char, c: char) {
    || (name == '"' && c == '"') || (name == '\\' && c == '\\') || (name == '/' && c == '/')
    || (name == 'b' && c as int == 0x08) || (name == 'f' && c as int == 0x0C) || (name == 'n' && c as int == 0x0A)
    || (name == 'r' && c as int == 0x0D) || (name == 't' && c as int == 0x09)
  }

  /** `s` is, after its backslash, an escape of `c` in front of `t`; characters beyond the first plane are surrogate pairs. */
  ghost predicate SpellsEscape(s: string, c: char, t: string) {
    || (s != "" && IsShort(s[0], c) && t == s[1..])
    || (s != "" && s[0] == 'u' && Hex4At(s, 1) == c as int && t == s[5..])
    || (|s| >= 11 && s[0] == 'u' && s[5] == '\\' && s[6] == 'u' && t == s[11..]
        && 0xD800 <= Hex4At(s, 1) < 0xDC00 <= Hex4At(s, 7) < 0xE000
        && c as int == 0x10000 + (Hex4At(s, 1) - 0xD800) * 0x400 + (Hex4At(s, 7) - 0xDC00))
  }

  /** `s` is the characters `x` of a string literal and its closing quote, in front of `rest`. */
  ghost predicate SpellsChars(s: string, x: string, rest: string)
    decreases |x|
  {
    if s == "" then false
    else if x == "" then s[0] == '"' && rest == s[1..]
    else
      || (s[0] == x[0] && s[0] as int >= 0x20 && s[0] != '"' && s[0] != '\\' && SpellsChars(s[1..], x[1..], rest))
      || (s[0] == '\\' && exists t :: SpellsEscape(s[1..], x[0], t) && SpellsChars(t, x[1..], rest))
  }

  lemma HexValueIs(c: char)
    ensures HexValue(c) == if HexOf(c as int) < 0 then None else Some(HexOf(c as int))
  {
  }

  lemma Hex4Is(s: string, k: nat)
    requires k <= |s|
    ensures Hex4(s[k..]) == if Hex4At(s, k) < 0 then None else Some(Hex4At(s, k))
  {
    if k + 4 <= |s| {
      HexValueIs(s[k]);
      HexValueIs(s[k + 1]);
      HexValueIs(s[k + 2]);
      HexValueIs(s[k + 3]);
    }
  }

  /** The four digits after the `u`, and those of the second half of a pair. */
  lemma UnicodeDigits(s: string)
    requires s != ""
    ensures Hex4(s[1..]) == if Hex4At(s, 1) < 0 then None else Some(Hex4At(s, 1))
    ensures |s| >= 5 ==> s[1..][4..] == s[5..]
    ensures |s| >= 7 ==> Hex4(s[1..][6..]) == if Hex4At(s, 7) < 0 then None else Some(Hex4At(s, 7))
    ensures |s| >= 11 ==> s[1..][10..] == s[11..]
  {
    Hex4Is(s, 1);
    if |s| >= 7 {
      Hex4Is(s, 7);
      assert s[1..][6..] == s[7..];
    }
  }

  lemma UnicodeExactly(s: string, c: char, t: string)
    requires s != "" && s[0] == 'u'
    ensures UnicodeEscape(s[1..]) == Some((c, t)) <==> SpellsEscape(s, c, t)
  {
    UnicodeDigits(s);
  }

  lemma EscapesExactly(s: string, c: char, t: string)
    ensures Escape(s) == Some((c, t)) <==> SpellsEscape(s, c, t)
  {
    if s != "" && s[0] == 'u' {
      UnicodeExactly(s, c, t);
    }
  }

  lemma {:induction false} CharsSound(s: string)
    ensures Chars(s).Some? ==> SpellsChars(s, Chars(s).value.0, Chars(s).value.1)
    decreases |s|
  {
    if Chars(s).Some? && s[0] != '"' {
      var (x, rest) := Chars(s).value;
      if s[0] == '\\' {
        var (c, t) := Escape(s[1..]).value;
        CharsSound(t);
        EscapesExactly(s[1..], c, t);
        assert x[1..] == Chars(t).value.0;
      } else {
        CharsSound(s[1..]);
        assert x[1..] == Chars(s[1..]).value.0;
      }
    }
  }

  lemma {:induction false} CharsComplete(s: string, x: string, rest: string)
    requires SpellsChars(s, x, rest)
    ensures Chars(s) == Some((x, rest))
    decreases |x|
  {
    if x != "" {
      assert [x[0]] + x[1..] == x;
      if s[0] == '\\' {
        var t :| SpellsEscape(s[1..], x[0], t) && SpellsChars(t, x[1..], rest);
        EscapesExactly(s[1..], x[0], t);
        CharsComplete(t, x[1..], rest);
      } else {
        CharsComplete(s[1..], x[1..], rest);
      }
    }
  }

  // ---------------------------------------------------------------- numbers

  /** Section 6: an optional minus, an integer without leading zeros, and an optional fraction and exponent. */
  ghost predicate IsNumber(n: string) {
    IsUnsigned(n) || (n != "" && n[0] == '-' && IsUnsigned(n[1..]))
  }

  ghost predicate IsUnsigned(n: string) {
    exists whole, fraction, exponent :: AreParts(n, whole, fraction, exponent)
  }

  ghost predicate AreParts(n: string, whole: string, fraction: string, exponent: string) {
    n == whole + (fraction + exponent) && IsWhole(whole) && IsFraction(fraction) && IsExponent(exponent)
  }

  ghost predicate IsDigits(s: string) {
    s != "" && AllDigits(s)
  }

  ghost predicate IsWhole(s: string) {
    s == "0" || (IsDigits(s) && s[0] != '0')
  }

  ghost predicate IsFraction(s: string) {
    s == "" || (s[0] == '.' && IsDigits(s[1..]))
  }

  ghost predicate IsExponent(s: string) {
    s == "" || ((s[0] == 'e' || s[0] == 'E') && IsDigits(Unsigned(s[1..])))
  }

  ghost function Unsigned(s: string): string {
    if s != "" && (s[0] == '+' || s[0] == '-') then s[1..] else s
  }

  /** What may follow a value: nothing, white space, a comma or a closing bracket. */
  ghost predicate Ends(rest: string) {
    rest == "" || IsWs(rest[0]) || rest[0] == ',' || rest[0] == ']' || rest[0] == '}'
  }

  lemma {:induction false} RunIs(digits: string, rest: string)
    requires AllDigits(digits) && (rest == "" || !IsDigit(rest[0]))
    ensures DigitRun(digits + rest) == |digits|
  {
    if digits == "" {
      assert digits + rest == rest;
    } else {
      assert (digits + rest)[1..] == digits[1..] + rest;
      RunIs(digits[1..], rest);
    }
  }

  lemma {:induction false} RunSplits(s: string)
    ensures DigitRun(s) <= |s| && AllDigits(s[..DigitRun(s)])
    ensures DigitRun(s) == |s| || !IsDigit(s[DigitRun(s)])
  {
    if s != "" && IsDigit(s[0]) {
      RunSplits(s[1..]);
      assert s[..DigitRun(s)] == [s[0]] + s[1..][..DigitRun(s[1..])];
    }
  }

  lemma WholeSound(s: string)
    ensures WholeLength(s) > 0 ==> IsWhole(s[..WholeLength(s)])
  {
    RunSplits(s);
  }

  lemma FractionSound(s: string)
    ensures FractionLength(s).Some? ==> IsFraction(s[..FractionLength(s).value])
  {
    if s != "" && s[0] == '.' {
      RunSplits(s[1..]);
      var n := DigitRun(s[1..]);
      assert s[..1 + n][1..] == s[1..][..n];
    }
  }

  lemma ExponentSound(s: string)
    ensures ExponentLength(s).Some? ==> IsExponent(s[..ExponentLength(s).value])
  {
    if s != "" && (s[0] == 'e' || s[0] == 'E') {
      var k := if |s| > 1 && (s[1] == '+' || s[1] == '-') then 2 else 1;
      RunSplits(s[k..]);
      var n := DigitRun(s[k..]);
      if n > 0 {
        assert s[..k + n][k..] == s[k..][..n];
        if k == 1 {
          assert s[..k + n][1..] == s[k..][..n] && s[k..][..n][0] == s[1];
        } else {
          assert s[..k + n][1..][0] == s[1] && s[..k + n][1..][1..] == s[k..][..n];
        }
      }
    }
  }

  lemma ThreeParts(s: string, t: string, u: string, a: nat, b: nat, c: nat)
    requires a <= |s| && t == s[a..] && b <= |t| && u == t[b..] && c <= |u|
    ensures s[..a + (b + c)] == s[..a] + (t[..b] + u[..c])
  {
  }

  lemma UnsignedSound(s: string)
    ensures UnsignedLength(s) > 0 ==> IsUnsigned(s[..UnsignedLength(s)])
  {
    if UnsignedLength(s) > 0 {
      var whole := WholeLength(s);
      var t := s[whole..];
      var fraction := FractionLength(t).value;
      var u := t[fraction..];
      var exponent := ExponentLength(u).value;
      WholeSound(s);
      FractionSound(t);
      ExponentSound(u);
      ThreeParts(s, t, u, whole, fraction, exponent);
      assert AreParts(s[..UnsignedLength(s)], s[..whole], t[..fraction], u[..exponent]);
    }
  }

  /** What the parser takes for a number is one. */
  lemma NumberSound(s: string)
    ensures NumberLength(s) > 0 ==> IsNumber(s[..NumberLength(s)])
  {
    if s != "" && s[0] == '-' {
      var n := UnsignedLength(s[1..]);
      UnsignedSound(s[1..]);
      assert s[..1 + n][1..] == s[1..][..n];
    } else {
      UnsignedSound(s);
    }
  }

  lemma WholeComplete(whole: string, rest: string)
    requires IsWhole(whole) && (rest == "" || !IsDigit(rest[0]))
    ensures WholeLength(whole + rest) == |whole| > 0
    ensures (whole + rest)[|whole|..] == rest && (whole + rest)[0] != '-'
  {
    if whole != "0" {
      RunIs(whole, rest);
    }
    assert (whole + rest)[0] == whole[0];
  }

  lemma FractionComplete(fraction: string, rest: string)
    requires IsFraction(fraction) && (rest == "" || (!IsDigit(rest[0]) && rest[0] != '.'))
    ensures FractionLength(fraction + rest) == Some(|fraction|) && (fraction + rest)[|fraction|..] == rest
  {
    if fraction == "" {
      assert fraction + rest == rest;
    } else {
      RunIs(fraction[1..], rest);
      assert (fraction + rest)[1..] == fraction[1..] + rest;
    }
  }

  lemma ExponentComplete(exponent: string, rest: string)
    requires IsExponent(exponent) && Ends(rest)
    ensures ExponentLength(exponent + rest) == Some(|exponent|)
  {
    var s := exponent + rest;
    if exponent == "" {
      assert s == rest;
    } else {
      var digits := Unsigned(exponent[1..]);
      RunIs(digits, rest);
      assert s[0] == exponent[0] && s[1] == exponent[1];
      if exponent[1] == '+' || exponent[1] == '-' {
        assert digits == exponent[2..] && s[2..] == digits + rest;
      } else {
        assert digits == exponent[1..] && s[1..] == digits + rest;
      }
    }
  }

  lemma AfterFraction(exponent: string, rest: string)
    requires IsExponent(exponent) && Ends(rest)
    ensures exponent + rest == "" || (!IsDigit((exponent + rest)[0]) && (exponent + rest)[0] != '.')
  {
    if exponent == "" {
      assert exponent + rest == rest;
    } else {
      assert (exponent + rest)[0] == exponent[0];
    }
  }

  lemma AfterWhole(fraction: string, t: string)
    requires IsFraction(fraction) && (t == "" || !IsDigit(t[0]))
    ensures fraction + t == "" || !IsDigit((fraction + t)[0])
  {
    if fraction == "" {
      assert fraction + t == t;
    } else {
      assert (fraction + t)[0] == fraction[0];
    }
  }

  lemma PartsComplete(whole: string, fraction: string, exponent: string, rest: string)
    requires IsWhole(whole) && IsFraction(fraction) && IsExponent(exponent) && Ends(rest)
    ensures var s := whole + (fraction + (exponent + rest));
            UnsignedLength(s) == |whole| + (|fraction| + |exponent|) > 0 && s[0] == whole[0]
  {
    var t := exponent + rest;
    ExponentComplete(exponent, rest);
    AfterFraction(exponent, rest);
    FractionComplete(fraction, t);
    AfterWhole(fraction, t);
    WholeComplete(whole, fraction + t);
  }

  lemma Regroup(whole: string, fraction: string, exponent: string, rest: string)
    ensures whole + (fraction + exponent) + rest == whole + (fraction + (exponent + rest))
  {
    assert fraction + exponent + rest == fraction + (exponent + rest);
    assert whole + (fraction + exponent) + rest == whole + (fraction + exponent + rest);
  }

  lemma UnsignedComplete(n: string, rest: string)
    requires IsUnsigned(n) && Ends(rest)
    ensures UnsignedLength(n + rest) == |n| > 0 && IsDigit(n[0])
  {
    var whole, fraction, exponent :| AreParts(n, whole, fraction, exponent);
    PartsComplete(whole, fraction, exponent, rest);
    Regroup(whole, fraction, exponent, rest);
    assert n[0] == whole[0];
  }

  lemma PlainNumber(n: string, rest: string)
    requires IsUnsigned(n) && Ends(rest)
    ensures NumberLength(n + rest) == |n| > 0 && IsDigit(n[0])
  {
    UnsignedComplete(n, rest);
    FirstOfConcat(n, rest);
  }

  lemma NegativeNumber(n: string, unsigned: string, rest: string)
    requires n != "" && n[0] == '-' && n[1..] == unsigned && IsUnsigned(unsigned) && Ends(rest)
    ensures NumberLength(n + rest) == |n| > 0
  {
    UnsignedComplete(unsigned, rest);
    FirstOfConcat(n, rest);
  }

  lemma FirstOfConcat(n: string, rest: string)
    requires n != ""
    ensures (n + rest)[0] == n[0] && (n + rest)[1..] == n[1..] + rest
  {
  }

  /** In front of an end, the parser takes all of a number. */
  lemma NumberComplete(n: string, rest: string)
    requires IsNumber(n) && Ends(rest)
    ensures NumberLength(n + rest) == |n| > 0
    ensures IsDigit(n[0]) || n[0] == '-'
  {
    if IsUnsigned(n) {
      PlainNumber(n, rest);
    } else {
      NegativeNumber(n, n[1..], rest);
    }
  }

  // ---------------------------------------------------------------- values

  /** `s` is a text of `v` in front of `rest`. */
  ghost predicate Spells(s: string, v: Value, rest: string)
    decreases v, 0
  {
    match v
    case Null => s == "null" + rest
    case Bool(b) => s == (if b then "true" else "false") + rest
    case Number(n) => s == n + rest && IsNumber(n)
    case Str(x) => s != "" && s[0] == '"' && SpellsChars(s[1..], x, rest)
    case Array(items) => s != "" && s[0] == '[' && if items == [] then Closes(s[1..], ']', rest) else SpellsItems(s[1..], items, rest)
    case Object(fields) => s != "" && s[0] == '{' && if fields == [] then Closes(s[1..], '}', rest) else SpellsFields(s[1..], fields, rest)
  }

  /** `s` is a closing bracket, possibly after white space, in front of `rest`. */
  ghost predicate Closes(s: string, bracket: char, rest: string) {
    exists t :: Spaces(s, t) && t != "" && t[0] == bracket && rest == t[1..]
  }

  /** `s` is the text of `v` with white space on both sides, in front of `t`. */
  ghost predicate SpellsPadded(s: string, v: Value, t: string)
    decreases v, 1
  {
    exists a, b :: Spaces(s, a) && Spells(a, v, b) && Spaces(b, t)
  }

  /** `s` is one or more items and the closing bracket, in front of `rest`. */
  ghost predicate SpellsItems(s: string, items: seq<Value>, rest: string)
    requires items != []
    decreases items
  {
    exists t :: SpellsPadded(s, items[0], t) && t != "" &&
                if |items| == 1 then t[0] == ']' && rest == t[1..] else t[0] == ',' && SpellsItems(t[1..], items[1..], rest)
  }

  /** `s` is a quoted name, possibly after white space, and a colon, in front of `t`. */
  ghost predicate SpellsKey(s: string, key: string, t: string) {
    exists a, b, c ::
      && Spaces(s, a) && a != "" && a[0] == '"' && SpellsChars(a[1..], key, b)
      && Spaces(b, c) && c != "" && c[0] == ':' && t == c[1..]
  }

  /** `s` is one field in front of `t`. */
  ghost predicate SpellsField(s: string, field: Field, t: string)
    decreases field
  {
    exists u :: SpellsKey(s, field.key, u) && SpellsPadded(u, field.value, t)
  }

  /** `s` is one or more fields and the closing brace, in front of `rest`. */
  ghost predicate SpellsFields(s: string, fields: seq<Field>, rest: string)
    requires fields != []
    decreases fields
  {
    exists t :: SpellsField(s, fields[0], t) && t != "" &&
                if |fields| == 1 then t[0] == '}' && rest == t[1..] else t[0] == ',' && SpellsFields(t[1..], fields[1..], rest)
  }

  /** A JSON text (section 2) of the value. */
  ghost predicate IsJson(text: string, v: Value) {
    SpellsPadded(text, v, "")
  }

  // ---------------------------------------------------------------- the parser accepts only JSON

  lemma PaddedSound(s: string, v: Value, rest: string)
    requires Spells(SkipSpace(s), v, rest)
    ensures SpellsPadded(s, v, SkipSpace(rest))
  {
    SkipsAll(s);
    SkipsAll(rest);
  }

  lemma {:induction false} ValueSound(s: string)
    ensures ParseValue(s).Some? ==> Spells(SkipSpace(s), ParseValue(s).value.0, ParseValue(s).value.1)
    decreases |s|, 1
  {
    var t := SkipSpace(s);
    if t != "" {
      if t[0] == '"' {
        CharsSound(t[1..]);
      } else if t[0] == '{' {
        SkipsAll(t[1..]);
        FieldsSound(t[1..]);
      } else if t[0] == '[' {
        SkipsAll(t[1..]);
        ItemsSound(t[1..]);
      } else if "null" <= t || "true" <= t {
        assert t == t[..4] + t[4..];
      } else if "false" <= t {
        assert t == t[..5] + t[5..];
      } else {
        NumberSound(t);
        assert t == t[..NumberLength(t)] + t[NumberLength(t)..];
      }
    }
  }

  lemma {:induction false} ItemsSound(s: string)
    ensures ParseItems(s).Some? ==>
              var (items, rest) := ParseItems(s).value;
              items != [] && SpellsItems(s, items, rest)
    decreases |s|, 2
  {
    ValueSound(s);
    if ParseItems(s).Some? {
      var (v, after) := ParseValue(s).value;
      var t := SkipSpace(after);
      PaddedSound(s, v, after);
      if t[0] == ',' {
        ItemsSound(t[1..]);
        assert ParseItems(s).value.0[1..] == ParseItems(t[1..]).value.0;
      }
    }
  }

  lemma KeySound(s: string)
    ensures ParseKey(s).Some? ==> SpellsKey(s, ParseKey(s).value.0, ParseKey(s).value.1)
  {
    if ParseKey(s).Some? {
      var a := SkipSpace(s);
      var (key, b) := Chars(a[1..]).value;
      SkipsAll(s);
      SkipsAll(b);
      CharsSound(a[1..]);
    }
  }

  lemma FieldSound(s: string, key: string, u: string, v: Value, rest: string)
    requires ParseKey(s) == Some((key, u)) && Spells(SkipSpace(u), v, rest)
    ensures SpellsField(s, Field(key, v), SkipSpace(rest))
  {
    KeySound(s);
    PaddedSound(u, v, rest);
  }

  lemma {:induction false} FieldsSound(s: string)
    ensures ParseFields(s).Some? ==>
              var (fields, rest) := ParseFields(s).value;
              fields != [] && SpellsFields(s, fields, rest)
    decreases |s|, 0
  {
    if ParseFields(s).Some? {
      var (key, u) := ParseKey(s).value;
      ValueSound(u);
      var (v, after) := ParseValue(u).value;
      FieldSound(s, key, u, v, after);
      var t := SkipSpace(after);
      if t[0] == ',' {
        FieldsSound(t[1..]);
        MoreFields(s, Field(key, v), t, ParseFields(t[1..]).value.0, ParseFields(t[1..]).value.1);
      }
    }
  }

  lemma MoreFields(s: string, first: Field, t: string, fields: seq<Field>, rest: string)
    requires SpellsField(s, first, t) && t != "" && t[0] == ',' && fields != [] && SpellsFields(t[1..], fields, rest)
    ensures SpellsFields(s, [first] + fields, rest)
  {
    assert ([first] + fields)[1..] == fields;
  }

  // ---------------------------------------------------------------- and all of it

  /** The first character of a text tells the kind of its value. */
  lemma FirstOfValue(s: string, v: Value, rest: string)
    requires Spells(s, v, rest) && Ends(rest)
    ensures s != "" && !IsWs(s[0])
    ensures s[0] == (match v
                     case Null => 'n'
                     case Bool(b) => if b then 't' else 'f'
                     case Number(_) => s[0]
                     case Str(_) => '"'
                     case Array(_) => '['
                     case Object(_) => '{')
    ensures v.Number? ==> IsDigit(s[0]) || s[0] == '-'
  {
    if v.Number? {
      NumberComplete(v.text, rest);
    }
  }

  /** White space, commas and brackets end a value. */
  lemma PaddingEnds(b: string, t: string)
    requires Spaces(b, t) && (t == "" || t[0] == ',' || t[0] == ']' || t[0] == '}')
    ensures Ends(b) && SkipSpace(b) == t
  {
    SkipsInFront(b, t);
  }

  lemma CloseIsFound(s: string, bracket: char, rest: string)
    requires Closes(s, bracket, rest) && !IsWs(bracket)
    ensures var u := SkipSpace(s);
            u != "" && u[0] == bracket && u[1..] == rest
  {
    var t :| Spaces(s, t) && t != "" && t[0] == bracket && rest == t[1..];
    SkipsTo(s, t);
  }

  lemma {:induction false} ValueComplete(s: string, a: string, v: Value, rest: string)
    requires Spaces(s, a) && Spells(a, v, rest) && Ends(rest)
    ensures ParseValue(s) == Some((v, rest))
    decreases v, 0
  {
    FirstOfValue(a, v, rest);
    SkipsTo(s, a);
    match v
    case Null =>
    case Bool(_) =>
    case Number(n) => NumberComplete(n, rest);
    case Str(x) => CharsComplete(a[1..], x, rest);
    case Array(items) =>
      if items == [] {
        CloseIsFound(a[1..], ']', rest);
      } else {
        ItemsComplete(a[1..], items, rest);
      }
    case Object(fields) =>
      if fields == [] {
        CloseIsFound(a[1..], '}', rest);
      } else {
        FieldsComplete(a[1..], fields, rest);
      }
  }

  lemma {:induction false} PaddedComplete(s: string, v: Value, t: string)
    requires SpellsPadded(s, v, t) && (t == "" || t[0] == ',' || t[0] == ']' || t[0] == '}')
    ensures ParseValue(s).Some? && ParseValue(s).value.0 == v && SkipSpace(ParseValue(s).value.1) == t
    ensures SkipSpace(s) != "" && SkipSpace(s)[0] != ']'
    decreases v, 1
  {
    var a, b :| Spaces(s, a) && Spells(a, v, b) && Spaces(b, t);
    PaddingEnds(b, t);
    ValueComplete(s, a, v, b);
    FirstOfValue(a, v, b);
    SkipsTo(s, a);
  }

  lemma {:induction false} ItemsComplete(s: string, items: seq<Value>, rest: string)
    requires items != [] && SpellsItems(s, items, rest)
    ensures ParseItems(s) == Some((items, rest))
    ensures SkipSpace(s) != "" && SkipSpace(s)[0] != ']'
    decreases items
  {
    var t :| SpellsPadded(s, items[0], t) && t != "" &&
             if |items| == 1 then t[0] == ']' && rest == t[1..] else t[0] == ',' && SpellsItems(t[1..], items[1..], rest);
    PaddedComplete(s, items[0], t);
    if |items| > 1 {
      ItemsComplete(t[1..], items[1..], rest);
      assert [items[0]] + items[1..] == items;
    } else {
      assert [items[0]] == items;
    }
  }

  lemma KeyComplete(s: string, key: string, t: string)
    requires SpellsKey(s, key, t)
    ensures ParseKey(s) == Some((key, t)) && SkipSpace(s) != "" && SkipSpace(s)[0] != '}'
  {
    var a, b, c :|
      && Spaces(s, a) && a != "" && a[0] == '"' && SpellsChars(a[1..], key, b)
      && Spaces(b, c) && c != "" && c[0] == ':' && t == c[1..];
    SkipsTo(s, a);
    CharsComplete(a[1..], key, b);
    SkipsTo(b, c);
  }

  lemma {:induction false} FieldComplete(s: string, field: Field, t: string)
    requires SpellsField(s, field, t) && (t == "" || t[0] == ',' || t[0] == '}')
    ensures ParseKey(s).Some? && ParseKey(s).value.0 == field.key && SkipSpace(s) != "" && SkipSpace(s)[0] != '}'
    ensures var r := ParseValue(ParseKey(s).value.1);
            r.Some? && r.value.0 == field.value && SkipSpace(r.value.1) == t
    decreases field
  {
    var u :| SpellsKey(s, field.key, u) && SpellsPadded(u, field.value, t);
    KeyComplete(s, field.key, u);
    PaddedComplete(u, field.value, t);
  }

  lemma {:induction false} FieldsComplete(s: string, fields: seq<Field>, rest: string)
    requires fields != [] && SpellsFields(s, fields, rest)
    ensures ParseFields(s) == Some((fields, rest))
    ensures SkipSpace(s) != "" && SkipSpace(s)[0] != '}'
    decreases fields
  {
    var t :| SpellsField(s, fields[0], t) && t != "" &&
             if |fields| == 1 then t[0] == '}' && rest == t[1..] else t[0] == ',' && SpellsFields(t[1..], fields[1..], rest);
    FieldComplete(s, fields[0], t);
    if |fields| > 1 {
      FieldsComplete(t[1..], fields[1..], rest);
    }
    FieldsStep(s, fields, t, rest);
  }

  /** The parser after one field. */
  lemma FieldsStep(s: string, fields: seq<Field>, t: string, rest: string)
    requires fields != [] && ParseKey(s).Some? && ParseKey(s).value.0 == fields[0].key && t != ""
    requires var r := ParseValue(ParseKey(s).value.1);
             r.Some? && r.value.0 == fields[0].value && SkipSpace(r.value.1) == t
    requires if |fields| == 1 then t[0] == '}' && rest == t[1..] else t[0] == ',' && ParseFields(t[1..]) == Some((fields[1..], rest))
    ensures ParseFields(s) == Some((fields, rest))
  {
    var first := Field(fields[0].key, fields[0].value);
    if |fields| == 1 {
      assert fields == [first];
    } else {
      assert fields == [first] + fields[1..];
    }
  }

  /** The parser returns a value exactly for the JSON texts of it; so no text has two values, and what it refuses is no JSON. */
  lemma ParsesExactlyJson(text: string, v: Value)
    ensures Parse(text) == Some(v) <==> IsJson(text, v)
  {
    ValueSound(text);
    if Parse(text) == Some(v) {
      PaddedSound(text, v, ParseValue(text).value.1);
    }
    if IsJson(text, v) {
      PaddedComplete(text, v, "");
    }
  }
}
