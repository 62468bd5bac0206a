/** Display of base-unit integers (src/lib/fixed-point.ts). */
module FixedPoint {
  import opened Text

  // ---------------------------------------------------------------- grouping

  function LeadingDigits(s: string): nat {
    if s != "" && IsDigit(s[0]) then 1 + LeadingDigits(s[1..]) else 0
  }

  predicate IsWordCharacter(c: char) {
    IsDigit(c) || 'a' <= c <= 'z' || 'A' <= c <= 'Z' || c == '_'
  }

  /**
   * `s.replace(/\B(?=(\d{3})+(?!\d))/g, ",")` from a position on: a comma goes before a digit that
   * follows a word character and starts a run of digits whose length is a multiple of three.
   */
  function GroupedAfter(afterWord: bool, s: string): string
    decreases |s|
  {
    if s == "" then ""
    else
      (if afterWord && IsDigit(s[0]) && LeadingDigits(s) % 3 == 0 then [','] else [])
      + [s[0]] + GroupedAfter(IsWordCharacter(s[0]), s[1..])
  }

  function Grouped(s: string): string {
    GroupedAfter(false, s)
  }

  /** `groupDigits`; only the first two parts around a point are used, and an empty fraction is dropped. */
  function GroupDigits(value: string): string {
    var negative := value != "" && value[0] == '-';
    var body := if negative then value[1..] else value;
    var parts := Split(body, '.');
    var out := if |parts| > 1 && parts[1] != "" then Grouped(parts[0]) + "." + parts[1] else Grouped(parts[0]);
    if negative then "-" + out else out
  }

  function RemoveCommas(s: string): string {
    if s == "" then "" else (if s[0] == ',' then [] else [s[0]]) + RemoveCommas(s[1..])
  }

  /** Thousands separators as one writes them: every three digits, counted from the right. */
  function Thousands(digits: string): string {
    if |digits| <= 3 then digits else Thousands(digits[..|digits| - 3]) + "," + digits[|digits| - 3..]
  }

  lemma {:induction false} LeadingDigitsOfDigits(s: string)
    requires AllDigits(s)
    ensures LeadingDigits(s) == |s|
  {
    if s != "" {
      LeadingDigitsOfDigits(s[1..]);
    }
  }

  /** One step of the grouping of a digit string. */
  lemma GroupedStep(afterWord: bool, s: string)
    requires AllDigits(s) && s != ""
    ensures GroupedAfter(afterWord, s) == (if afterWord && |s| % 3 == 0 then [','] else []) + [s[0]] + GroupedAfter(true, s[1..])
  {
    LeadingDigitsOfDigits(s);
  }

  lemma UpToTwoStay(afterWord: bool, s: string)
    requires AllDigits(s) && |s| <= 2
    ensures GroupedAfter(afterWord, s) == s
  {
    if |s| > 0 {
      GroupedStep(afterWord, s);
      if |s| > 1 {
        GroupedStep(true, s[1..]);
        assert s[1..][1..] == "" && s == [s[0]] + [s[1]];
      } else {
        assert s[1..] == "" && s == [s[0]];
      }
    }
  }

  lemma ThreeAreSeparated(afterWord: bool, s: string)
    requires AllDigits(s) && |s| == 3
    ensures GroupedAfter(afterWord, s) == (if afterWord then "," + s else s)
  {
    GroupedStep(afterWord, s);
    UpToTwoStay(true, s[1..]);
    assert s == [s[0]] + s[1..];
    assert [','] + s == [','] + [s[0]] + s[1..];
  }

  /** Separating the last three digits does not disturb the grouping in front of them. */
  lemma {:induction false} GroupedAppend(afterWord: bool, s: string, three: string)
    requires AllDigits(s) && AllDigits(three) && |three| == 3 && s != ""
    ensures GroupedAfter(afterWord, s + three) == GroupedAfter(afterWord, s) + ("," + three)
    decreases |s|
  {
    var separator: string := if afterWord && |s| % 3 == 0 then [','] else [];
    GroupedStep(afterWord, s);
    FirstOfLonger(afterWord, s, three, separator);
    if |s| == 1 {
      ThreeAreSeparated(true, three);
      assert s[1..] + three == three && s[1..] == "";
      assert separator + [s[0]] + "" == separator + [s[0]];
    } else {
      GroupedAppend(true, s[1..], three);
      Associates(separator + [s[0]], GroupedAfter(true, s[1..]), "," + three);
    }
  }

  /** Three more digits behind do not change what happens to the first one. */
  lemma FirstOfLonger(afterWord: bool, s: string, three: string, separator: string)
    requires AllDigits(s) && AllDigits(three) && |three| == 3 && s != ""
    requires separator == if afterWord && |s| % 3 == 0 then [','] else []
    ensures GroupedAfter(afterWord, s + three) == separator + [s[0]] + GroupedAfter(true, s[1..] + three)
  {
    DigitsJoin(s, three);
    HeadOfJoin(s, three);
    ThreeMore(|s|);
    GroupedStep(afterWord, s + three);
  }

  lemma DigitsJoin(a: string, b: string)
    requires AllDigits(a) && AllDigits(b)
    ensures AllDigits(a + b)
  {
  }

  lemma HeadOfJoin(a: string, b: string)
    requires a != ""
    ensures |a + b| == |a| + |b| && (a + b)[0] == a[0] && (a + b)[1..] == a[1..] + b
  {
  }

  lemma ThreeMore(n: nat)
    ensures (n + 3) % 3 == n % 3
  {
  }

  lemma Associates(a: string, b: string, c: string)
    ensures a + (b + c) == (a + b) + c
  {
  }

  /** The regular expression places the separators exactly every three digits from the right. */
  lemma {:induction false} GroupedIsThousands(digits: string)
    requires AllDigits(digits)
    ensures Grouped(digits) == Thousands(digits)
  {
    if |digits| <= 3 {
      if |digits| == 3 {
        ThreeAreSeparated(false, digits);
      } else {
        UpToTwoStay(false, digits);
      }
    } else {
      var front, three := digits[..|digits| - 3], digits[|digits| - 3..];
      assert front + three == digits;
      GroupedIsThousands(front);
      GroupedAppend(false, front, three);
      Associates(Thousands(front), ",", three);
    }
  }

  lemma {:induction false} RemoveCommasConcat(a: string, b: string)
    ensures RemoveCommas(a + b) == RemoveCommas(a) + RemoveCommas(b)
  {
    if a == "" {
      assert a + b == b;
    } else {
      RemoveCommasConcat(a[1..], b);
      assert (a + b)[0] == a[0] && (a + b)[1..] == a[1..] + b;
      Associates(if a[0] == ',' then [] else [a[0]], RemoveCommas(a[1..]), RemoveCommas(b));
    }
  }

  lemma {:induction false} RemoveCommasFromPlain(s: string)
    requires ',' !in s
    ensures RemoveCommas(s) == s
  {
    if s != "" {
      RemoveCommasFromPlain(s[1..]);
    }
  }

  lemma CommaVanishes(a: string, b: string)
    ensures RemoveCommas(a + "," + b) == RemoveCommas(a) + RemoveCommas(b)
  {
    OnlyComma();
    RemoveCommasConcat(a, ",");
    RemoveCommasConcat(a + ",", b);
  }

  lemma OnlyComma()
    ensures RemoveCommas(",") == ""
  {
  }

  /** Deleting the commas undoes the grouping. */
  lemma {:induction false} ThousandsUndone(digits: string)
    requires AllDigits(digits)
    ensures RemoveCommas(Thousands(digits)) == digits
  {
    if |digits| <= 3 {
      RemoveCommasFromPlain(digits);
    } else {
      var front, three := digits[..|digits| - 3], digits[|digits| - 3..];
      ThousandsUndone(front);
      RemoveCommasFromPlain(three);
      CommaVanishes(Thousands(front), three);
      assert front + three == digits;
    }
  }

  // ---------------------------------------------------------------- formatting

  /** A plain decimal: digits, and possibly a point and more digits. */
  datatype Plain = Plain(whole: string, fraction: string) {
    predicate Valid() {
      whole != "" && AllDigits(whole) && AllDigits(fraction)
    }

    function Text(): string {
      if fraction == "" then whole else whole + "." + fraction
    }

    /** Its value is `Numerator() / 10^|fraction|`. */
    function Numerator(): nat
      requires Valid()
    {
      BigInt(whole + fraction)
    }
  }

  /** `s.replace(/0+$/, "")`. */
  function TrimZeros(s: string): string {
    if s != "" && s[|s| - 1] == '0' then TrimZeros(s[..|s| - 1]) else s
  }

  function PadStart(s: string, length: nat): (padded: string)
    ensures |padded| >= length
  {
    if |s| >= length then s else Repeat('0', length - |s|) + s
  }

  function Min(a: nat, b: nat): nat {
    if a <= b then a else b
  }

  /** The parts before and after position `whole`, the second cut to `places` digits and stripped of trailing zeros. */
  function PointAt(padded: string, whole: nat, places: nat): Plain
    requires whole + places <= |padded|
  {
    Plain(padded[..whole], TrimZeros(padded[whole..][..places]))
  }

  /** Whole part and shown fraction of a digit string scaled by a positive number of places. */
  function Scaled(digits: string, decimals: nat, maxFractionDigits: nat): Plain {
    var padded := PadStart(digits, decimals + 1);
    PointAt(padded, |padded| - decimals, Min(maxFractionDigits, decimals))
  }

  predicate OnlyZerosAndPoint(s: string) {
    forall i :: 0 <= i < |s| ==> s[i] == '0' || s[i] == '.'
  }

  predicate OnlyZeros(s: string) {
    forall i :: 0 <= i < |s| ==> s[i] == '0'
  }

  predicate IsInteger(raw: string) {
    var digits := if raw != "" && raw[0] == '-' then raw[1..] else raw;
    digits != "" && AllDigits(digits)
  }

  /** A parsed integer string: sign and digits. */
  function SignOf(raw: string): string {
    if raw != "" && raw[0] == '-' then "-" else ""
  }

  function DigitsOf(raw: string): string {
    if raw != "" && raw[0] == '-' then raw[1..] else raw
  }

  function Smallest(maxFractionDigits: nat): string {
    if maxFractionDigits > 0 then "0." + Repeat('0', maxFractionDigits - 1) + "1" else "1"
  }

  /** `formatBaseUnits`. */
  function FormatBaseUnits(raw: string, decimals: int, maxFractionDigits: nat): string {
    if !IsInteger(raw) then raw
    else
      var digits := DigitsOf(raw);
      if decimals <= 0 then SignOf(raw) + GroupDigits(digits)
      else
        var body := Scaled(digits, decimals, maxFractionDigits).Text();
        if OnlyZerosAndPoint(body) && !OnlyZeros(digits) then SignOf(raw) + "<" + Smallest(maxFractionDigits)
        else SignOf(raw) + GroupDigits(body)
  }

  // ---------------------------------------------------------------- what is shown

  lemma {:induction false} ZeroValue(s: string)
    requires AllDigits(s)
    ensures BigInt(s) == 0 <==> OnlyZeros(s)
  {
    if s != "" {
      ZeroValue(s[..|s| - 1]);
    }
  }

  lemma PaddingKeepsValue(s: string, length: nat)
    requires AllDigits(s)
    ensures AllDigits(PadStart(s, length)) && BigInt(PadStart(s, length)) == BigInt(s)
    ensures |PadStart(s, length)| >= length && |PadStart(s, length)| >= |s|
  {
    if |s| < length {
      ValueConcat(Repeat('0', length - |s|), s);
      ValueOfZeros(length - |s|);
      ShiftOrder(0, 0, |s|);
    }
  }

  /** Dropping trailing zeros of a fraction divides the numerator by the matching power of ten. */
  lemma {:induction false} TrimmedValue(whole: string, cut: string)
    requires AllDigits(whole) && AllDigits(cut)
    ensures var t := TrimZeros(cut);
            && AllDigits(t) && |t| <= |cut|
            && BigInt(whole + cut) == Shift(BigInt(whole + t), |cut| - |t|)
  {
    if cut != "" && cut[|cut| - 1] == '0' {
      var front := cut[..|cut| - 1];
      TrimmedValue(whole, front);
      assert (whole + cut)[..|whole + cut| - 1] == whole + front;
    }
  }

  function ShownPlaces(decimals: nat, maxFractionDigits: nat): nat {
    Min(maxFractionDigits, decimals)
  }

  /** `p` shows `amount / 10^decimals` cut off after `places` digits: the shown value is at most the amount, by less than a last place. */
  predicate Truncates(p: Plain, amount: nat, decimals: nat, places: nat)
    requires p.Valid() && |p.fraction| <= places <= decimals
  {
    Shift(p.Numerator(), decimals - |p.fraction|) <= amount
      < Shift(p.Numerator(), decimals - |p.fraction|) + Pow10(decimals - places)
  }

  lemma PlainOfCut(whole: string, cut: string)
    requires whole != "" && AllDigits(whole) && AllDigits(cut)
    ensures var p := Plain(whole, TrimZeros(cut));
            p.Valid() && |p.fraction| <= |cut| && BigInt(whole + cut) == Shift(p.Numerator(), |cut| - |p.fraction|)
  {
    TrimmedValue(whole, cut);
  }

  lemma TruncatesFromCut(p: Plain, places: nat, kept: nat, dropped: nat, tail: nat)
    requires p.Valid() && |p.fraction| <= places && kept == Shift(p.Numerator(), places - |p.fraction|) && tail < Pow10(dropped)
    ensures Truncates(p, Shift(kept, dropped) + tail, places + dropped, places)
  {
    ShiftAdd(p.Numerator(), places - |p.fraction|, dropped);
  }

  lemma PartsJoin(s: string, n: nat, k: nat)
    requires n + k <= |s|
    ensures s[..n + k] == s[..n] + s[n..][..k]
  {
  }

  /** Placing the point and cutting the fraction truncates, and never rounds. */
  lemma PointTruncates(padded: string, whole: nat, decimals: nat, places: nat)
    requires AllDigits(padded) && 0 < whole && places <= decimals && |padded| == whole + decimals
    ensures var p := PointAt(padded, whole, places);
            p.Valid() && |p.fraction| <= places && Truncates(p, BigInt(padded), decimals, places)
  {
    var front, rest := padded[..whole], padded[whole..];
    DigitsOfParts(padded, whole);
    DigitsOfParts(rest, places);
    ValueOfParts(padded, whole + places);
    PartsJoin(padded, whole, places);
    CutTruncates(front, rest[..places], decimals, BigInt(padded[whole + places..]));
  }

  lemma CutTruncates(front: string, cut: string, decimals: nat, tail: nat)
    requires front != "" && AllDigits(front) && AllDigits(cut) && AllDigits(front + cut)
    requires |cut| <= decimals && tail < Pow10(decimals - |cut|)
    ensures var p := Plain(front, TrimZeros(cut));
            && p.Valid() && |p.fraction| <= |cut|
            && Truncates(p, Shift(BigInt(front + cut), decimals - |cut|) + tail, decimals, |cut|)
  {
    PlainOfCut(front, cut);
    TruncatesFromCut(Plain(front, TrimZeros(cut)), |cut|, BigInt(front + cut), decimals - |cut|, tail);
  }

  lemma ScaledIsPoint(digits: string, decimals: nat, maxFractionDigits: nat) returns (padded: string, whole: nat)
    requires digits != "" && AllDigits(digits) && decimals > 0
    ensures AllDigits(padded) && 0 < whole && |padded| == whole + decimals && BigInt(padded) == BigInt(digits)
    ensures Scaled(digits, decimals, maxFractionDigits) == PointAt(padded, whole, ShownPlaces(decimals, maxFractionDigits))
  {
    padded := PadStart(digits, decimals + 1);
    whole := |padded| - decimals;
    PaddingKeepsValue(digits, decimals + 1);
  }

  lemma ScaledTruncates(digits: string, decimals: nat, maxFractionDigits: nat)
    requires digits != "" && AllDigits(digits) && decimals > 0
    ensures var p := Scaled(digits, decimals, maxFractionDigits);
            var k := ShownPlaces(decimals, maxFractionDigits);
            p.Valid() && |p.fraction| <= k && Truncates(p, BigInt(digits), decimals, k)
  {
    var padded, whole := ScaledIsPoint(digits, decimals, maxFractionDigits);
    PointTruncates(padded, whole, decimals, ShownPlaces(decimals, maxFractionDigits));
  }

  /** A plain decimal reads as nothing but zeros exactly when its value is zero. */
  lemma LooksZero(p: Plain)
    requires p.Valid()
    ensures OnlyZerosAndPoint(p.Text()) <==> p.Numerator() == 0
  {
    ZeroValue(p.whole + p.fraction);
    if p.fraction != "" {
      ZerosOnBothSides(p.whole, p.fraction);
    } else {
      assert p.whole + p.fraction == p.whole;
    }
  }

  lemma ZerosOnBothSides(a: string, b: string)
    requires AllDigits(a) && AllDigits(b)
    ensures OnlyZerosAndPoint(a + "." + b) <==> OnlyZeros(a + b)
  {
    var t := a + "." + b;
    assert OnlyZerosAndPoint(t) <==> OnlyZerosAndPoint(a) && OnlyZerosAndPoint(b) by {
      assert forall i :: 0 <= i < |a| ==> t[i] == a[i];
      assert forall i :: 0 <= i < |b| ==> t[|a| + 1 + i] == b[i];
    }
    assert OnlyZeros(a + b) <==> OnlyZeros(a) && OnlyZeros(b) by {
      assert forall i :: 0 <= i < |a| ==> (a + b)[i] == a[i];
      assert forall i :: 0 <= i < |b| ==> (a + b)[|a| + i] == b[i];
    }
  }

  /** Reading a plain decimal: the parts around the first point. */
  function Read(s: string): Plain {
    var parts := Split(s, '.');
    Plain(parts[0], if |parts| > 1 then parts[1] else "")
  }

  lemma SplitPlain(p: Plain)
    requires p.Valid()
    ensures Split(p.Text(), '.') == if p.fraction == "" then [p.whole] else [p.whole, p.fraction]
    ensures Read(p.Text()) == p
  {
    SplitFirst(p.whole, p.fraction, '.');
    SplitFirst(p.fraction, "", '.');
  }

  /** `groupDigits` on a plain decimal: separators in the whole part, nothing else changed. */
  lemma GroupDigitsOfPlain(p: Plain)
    requires p.Valid()
    ensures GroupDigits(p.Text()) == Plain(Thousands(p.whole), p.fraction).Text()
  {
    SplitPlain(p);
    GroupedIsThousands(p.whole);
    StartsWithDigit(p);
  }

  lemma StartsWithDigit(p: Plain)
    requires p.Valid()
    ensures p.Text() != "" && IsDigit(p.Text()[0])
  {
    assert p.Text()[0] == p.whole[0];
  }

  /** A sign in front stays in front. */
  lemma GroupDigitsOfNegative(p: Plain)
    requires p.Valid()
    ensures GroupDigits("-" + p.Text()) == "-" + GroupDigits(p.Text())
  {
    StartsWithDigit(p);
    BodyAfterSign(p.Text());
  }

  lemma BodyAfterSign(body: string)
    ensures ("-" + body)[0] == '-' && ("-" + body)[1..] == body
  {
  }

  /** Deleting the commas undoes `groupDigits`. */
  lemma GroupingUndone(p: Plain)
    requires p.Valid()
    ensures RemoveCommas(GroupDigits(p.Text())) == p.Text()
  {
    GroupDigitsOfPlain(p);
    ThousandsUndone(p.whole);
    if p.fraction != "" {
      RemoveCommasConcat(Thousands(p.whole) + ".", p.fraction);
      RemoveCommasConcat(Thousands(p.whole), ".");
      assert RemoveCommas(".") == ".";
      RemoveCommasFromPlain(p.fraction);
    }
  }

  /** The plain decimal behind what is displayed. */
  function ShownDigits(digits: string, decimals: int, maxFractionDigits: nat): Plain {
    if decimals <= 0 then Plain(digits, "") else Scaled(digits, decimals, maxFractionDigits)
  }

  function Shown(raw: string, decimals: int, maxFractionDigits: nat): Plain {
    ShownDigits(DigitsOf(raw), decimals, maxFractionDigits)
  }

  function Scale(decimals: int): nat {
    if decimals <= 0 then 0 else decimals
  }

  function BelowSmallest(raw: string, maxFractionDigits: nat): string {
    SignOf(raw) + "<" + Smallest(maxFractionDigits)
  }

  /** The amount is not zero but less than one unit in the last shown place. */
  predicate IsDust(raw: string, decimals: int, maxFractionDigits: nat)
    requires IsInteger(raw)
  {
    0 < BigInt(DigitsOf(raw)) < Pow10(Scale(decimals) - ShownPlaces(Scale(decimals), maxFractionDigits))
  }

  lemma ShownDigitsTruncate(digits: string, decimals: int, maxFractionDigits: nat)
    requires digits != "" && AllDigits(digits)
    ensures var p := ShownDigits(digits, decimals, maxFractionDigits);
            var d := Scale(decimals);
            var k := ShownPlaces(d, maxFractionDigits);
            p.Valid() && |p.fraction| <= k && Truncates(p, BigInt(digits), d, k)
  {
    if decimals > 0 {
      ScaledTruncates(digits, decimals, maxFractionDigits);
    } else {
      assert digits + "" == digits;
    }
  }

  /** What is displayed is the amount truncated, for every number of places. */
  lemma ShownTruncates(raw: string, decimals: int, maxFractionDigits: nat)
    requires IsInteger(raw)
    ensures var p := Shown(raw, decimals, maxFractionDigits);
            var d := Scale(decimals);
            var k := ShownPlaces(d, maxFractionDigits);
            p.Valid() && |p.fraction| <= k && Truncates(p, BigInt(DigitsOf(raw)), d, k)
  {
    ShownDigitsTruncate(DigitsOf(raw), decimals, maxFractionDigits);
  }

  /** The shown value is zero exactly when the amount is below one unit in the last shown place. */
  lemma ShownZero(p: Plain, amount: nat, decimals: nat, places: nat)
    requires p.Valid() && |p.fraction| <= places <= decimals && Truncates(p, amount, decimals, places)
    ensures p.Numerator() == 0 <==> amount < Pow10(decimals - places)
  {
    ShiftOrder(0, p.Numerator(), decimals - |p.fraction|);
    Pow10Grows(decimals - places, decimals - |p.fraction|);
  }

  lemma DustLooksZero(p: Plain, amount: nat, decimals: nat, places: nat)
    requires p.Valid() && |p.fraction| <= places <= decimals && Truncates(p, amount, decimals, places)
    ensures OnlyZerosAndPoint(p.Text()) && amount != 0 <==> 0 < amount < Pow10(decimals - places)
  {
    ShownZero(p, amount, decimals, places);
    LooksZero(p);
  }

  lemma DigitsLookZero(digits: string, decimals: int, maxFractionDigits: nat)
    requires digits != "" && AllDigits(digits)
    ensures var p := ShownDigits(digits, decimals, maxFractionDigits);
            var d := Scale(decimals);
            && p.Valid()
            && (OnlyZerosAndPoint(p.Text()) && !OnlyZeros(digits)
                <==> 0 < BigInt(digits) < Pow10(d - ShownPlaces(d, maxFractionDigits)))
  {
    var d := Scale(decimals);
    ShownDigitsTruncate(digits, decimals, maxFractionDigits);
    DustLooksZero(ShownDigits(digits, decimals, maxFractionDigits), BigInt(digits), d, ShownPlaces(d, maxFractionDigits));
    ZeroValue(digits);
  }

  lemma ShownLooksZero(raw: string, decimals: int, maxFractionDigits: nat)
    requires IsInteger(raw)
    ensures var p := Shown(raw, decimals, maxFractionDigits);
            && p.Valid()
            && ((OnlyZerosAndPoint(p.Text()) && !OnlyZeros(DigitsOf(raw))) <==> IsDust(raw, decimals, maxFractionDigits))
  {
    DigitsLookZero(DigitsOf(raw), decimals, maxFractionDigits);
  }

  /** Which of the two forms is displayed, and the text of each. */
  lemma DisplayForms(raw: string, decimals: int, maxFractionDigits: nat)
    requires IsInteger(raw)
    ensures var p := Shown(raw, decimals, maxFractionDigits);
            && p.Valid()
            && FormatBaseUnits(raw, decimals, maxFractionDigits) ==
               if IsDust(raw, decimals, maxFractionDigits) then BelowSmallest(raw, maxFractionDigits)
               else SignOf(raw) + GroupDigits(p.Text())
  {
    ShownLooksZero(raw, decimals, maxFractionDigits);
    var digits := DigitsOf(raw);
    assert decimals <= 0 ==> Plain(digits, "").Text() == digits;
  }

  lemma GroupedStartsWithDigit(p: Plain)
    requires p.Valid()
    ensures GroupDigits(p.Text()) != "" && IsDigit(GroupDigits(p.Text())[0])
  {
    GroupDigitsOfPlain(p);
    ThousandsStartWithDigit(p.whole);
  }

  lemma {:induction false} ThousandsStartWithDigit(digits: string)
    requires digits != "" && AllDigits(digits)
    ensures Thousands(digits) != "" && IsDigit(Thousands(digits)[0])
  {
    if |digits| > 3 {
      ThousandsStartWithDigit(digits[..|digits| - 3]);
    }
  }

  /** Digits, both alphabets and the underscore, by code point. */
  lemma WordCharacters(c: char)
    ensures IsWordCharacter(c) <==>
              var n := c as int;
              48 <= n <= 57 || 65 <= n <= 90 || n == 95 || 97 <= n <= 122
  {
  }

  /** The text after "<" is one unit in the last shown place. */
  lemma SmallestIsOneLastPlace(maxFractionDigits: nat)
    ensures var p := Read(Smallest(maxFractionDigits));
            && p.Valid() && p.Text() == Smallest(maxFractionDigits)
            && p.Numerator() == 1 && |p.fraction| == maxFractionDigits
  {
    var n := maxFractionDigits;
    OneAfterZeros(n);
    if n == 0 {
      assert "1" + "" == "1" == Repeat('0', 0) + "1";
      SplitPlain(Plain("1", ""));
    } else {
      var fraction := Repeat('0', n - 1) + "1";
      assert "0" + fraction == Repeat('0', n) + "1";
      assert "0" + "." + fraction == "0." + Repeat('0', n - 1) + "1";
      SplitPlain(Plain("0", fraction));
    }
  }

  lemma OneAfterZeros(n: nat)
    ensures AllDigits(Repeat('0', n) + "1") && BigInt(Repeat('0', n) + "1") == 1
  {
    var s := Repeat('0', n) + "1";
    assert s[..|s| - 1] == Repeat('0', n);
    ValueOfZeros(n);
  }

  /** What is no integer is shown as it is; of an integer the sign and the digits are told apart. */
  lemma SignAndDigits(raw: string, decimals: int, maxFractionDigits: nat)
    ensures !IsInteger(raw) ==> FormatBaseUnits(raw, decimals, maxFractionDigits) == raw
    ensures IsInteger(raw) <==> (exists digits :: digits != "" && AllDigits(digits) && (raw == digits || raw == "-" + digits))
    ensures IsInteger(raw) ==> raw == if raw[0] == '-' then "-" + DigitsOf(raw) else DigitsOf(raw)
    ensures IsInteger(raw) ==> SignOf(raw) == if raw[0] == '-' then "-" else ""
  {
    if IsInteger(raw) {
      assert raw == DigitsOf(raw) || raw == "-" + DigitsOf(raw);
    }
    forall digits | digits != "" && AllDigits(digits)
      ensures IsInteger(digits) && IsInteger("-" + digits)
    {
      assert ("-" + digits)[1..] == digits;
    }
  }

  lemma DustIsSmallest(raw: string, maxFractionDigits: nat)
    requires IsInteger(raw)
    ensures var p := Read(Smallest(maxFractionDigits));
            && p.Valid() && p.Numerator() == 1 && |p.fraction| == maxFractionDigits
            && BelowSmallest(raw, maxFractionDigits) == (if raw[0] == '-' then "-<" else "<") + p.Text()
  {
    SmallestIsOneLastPlace(maxFractionDigits);
    SignAndDigits(raw, 0, maxFractionDigits);
  }

  /** The "<" form is displayed exactly for dust; in particular never when every place is shown. */
  lemma BelowSmallestExactlyForDust(raw: string, decimals: int, maxFractionDigits: nat)
    requires IsInteger(raw)
    ensures FormatBaseUnits(raw, decimals, maxFractionDigits) == BelowSmallest(raw, maxFractionDigits)
            <==> IsDust(raw, decimals, maxFractionDigits)
    ensures maxFractionDigits >= decimals ==> !IsDust(raw, decimals, maxFractionDigits)
    ensures var p := Read(Smallest(maxFractionDigits));
            && p.Valid() && p.Numerator() == 1 && |p.fraction| == maxFractionDigits
            && BelowSmallest(raw, maxFractionDigits) == (if raw[0] == '-' then "-<" else "<") + p.Text()
  {
    DustIsSmallest(raw, maxFractionDigits);
    DisplayForms(raw, decimals, maxFractionDigits);
    var p := Shown(raw, decimals, maxFractionDigits);
    GroupedStartsWithDigit(p);
    var n := |SignOf(raw)|;
    assert BelowSmallest(raw, maxFractionDigits)[n] == '<';
    assert (SignOf(raw) + GroupDigits(p.Text()))[n] == GroupDigits(p.Text())[0];
  }

  /** The magnitude displayed after the sign: the text without sign and commas, read as a plain decimal. */
  function Magnitude(raw: string, text: string): Plain
    requires |SignOf(raw)| <= |text|
  {
    Read(RemoveCommas(text[|SignOf(raw)|..]))
  }

  lemma MagnitudeIsShown(raw: string, decimals: int, maxFractionDigits: nat)
    requires IsInteger(raw) && !IsDust(raw, decimals, maxFractionDigits)
    ensures var text := FormatBaseUnits(raw, decimals, maxFractionDigits);
            && SignOf(raw) <= text
            && Magnitude(raw, text) == Shown(raw, decimals, maxFractionDigits)
  {
    var p := Shown(raw, decimals, maxFractionDigits);
    DisplayForms(raw, decimals, maxFractionDigits);
    var text := SignOf(raw) + GroupDigits(p.Text());
    assert text[|SignOf(raw)|..] == GroupDigits(p.Text());
    GroupingUndone(p);
    SplitPlain(p);
  }

  /**
   * The displayed magnitude p satisfies p <= amount / 10^decimals < p + 10^-places, and it is zero only for a zero amount.
   */
  predicate Displays(p: Plain, amount: nat, decimals: nat, places: nat) {
    && p.Valid() && |p.fraction| <= places <= decimals
    && Truncates(p, amount, decimals, places)
    && (p.Numerator() == 0 <==> amount == 0)
  }

  lemma ShownDisplays(raw: string, decimals: int, maxFractionDigits: nat)
    requires IsInteger(raw) && !IsDust(raw, decimals, maxFractionDigits)
    ensures Displays(Shown(raw, decimals, maxFractionDigits), BigInt(DigitsOf(raw)), Scale(decimals),
                     ShownPlaces(Scale(decimals), maxFractionDigits))
  {
    var d := Scale(decimals);
    ShownTruncates(raw, decimals, maxFractionDigits);
    ShownZero(Shown(raw, decimals, maxFractionDigits), BigInt(DigitsOf(raw)), d, ShownPlaces(d, maxFractionDigits));
  }

  /** Everything but dust is displayed as a sign and a magnitude that is the amount truncated, never rounded. */
  lemma DisplayTruncates(raw: string, decimals: int, maxFractionDigits: nat)
    requires IsInteger(raw) && !IsDust(raw, decimals, maxFractionDigits)
    ensures var text := FormatBaseUnits(raw, decimals, maxFractionDigits);
            && SignOf(raw) <= text && text != "" && (text[0] == '-' <==> raw[0] == '-')
            && Displays(Magnitude(raw, text), BigInt(DigitsOf(raw)), Scale(decimals),
                        ShownPlaces(Scale(decimals), maxFractionDigits))
  {
    SignAndDigits(raw, decimals, maxFractionDigits);
    DisplayForms(raw, decimals, maxFractionDigits);
    GroupedStartsWithDigit(Shown(raw, decimals, maxFractionDigits));
    MagnitudeIsShown(raw, decimals, maxFractionDigits);
    ShownDisplays(raw, decimals, maxFractionDigits);
  }
}
