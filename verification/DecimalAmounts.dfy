/** Human decimal amounts as integers of smallest units (backend/src/lib/production-config.ts). */
module DecimalAmounts {
  import opened Wrappers
  import opened Text
  import opened FixedPoint

  datatype AmountError = NotDecimal | TooPrecise | NotPositive

  /** `/^\d+(?:\.\d+)?$/`. */
  predicate IsDecimal(raw: string) {
    var n := LeadingDigits(raw);
    LeadingDigitsFit(raw);
    && n > 0
    && (n == |raw| || (raw[n] == '.' && n + 1 < |raw| && AllDigits(raw[n + 1..])))
  }

  lemma {:induction false} LeadingDigitsFit(s: string)
    ensures LeadingDigits(s) <= |s| && AllDigits(s[..LeadingDigits(s)])
    ensures LeadingDigits(s) == |s| || !IsDigit(s[LeadingDigits(s)])
  {
    if s != "" && IsDigit(s[0]) {
      LeadingDigitsFit(s[1..]);
      var n := LeadingDigits(s[1..]);
      assert s[..n + 1] == [s[0]] + s[1..][..n];
    }
  }

  /** `s.padEnd(length, "0")`. */
  function PadEnd(s: string, length: nat): string {
    if |s| >= length then s else s + Repeat('0', length - |s|)
  }

  /** `s.slice(0, length)`. */
  function Front(s: string, length: nat): string {
    if |s| <= length then s else s[..length]
  }

  /** `decimalToSmallestUnits`; a thrown error is `Err`. */
  function DecimalToSmallestUnits(raw: string, decimals: nat): Result<string, AmountError> {
    if !IsDecimal(raw) then Err(NotDecimal)
    else
      DecimalReads(raw);
      var amount := Read(raw);
      if |amount.fraction| > decimals && !OnlyZeros(amount.fraction[decimals..]) then Err(TooPrecise)
      else
        var value := Units(amount, decimals);
        if value <= 0 then Err(NotPositive) else Ok(Digits(value))
  }

  /** `BigInt(whole) * 10n ** BigInt(decimals) + BigInt(normalizedFraction || "0")`. */
  function Units(amount: Plain, decimals: nat): nat
    requires amount.Valid()
  {
    var fraction := PadEnd(Front(amount.fraction, decimals), decimals);
    Shift(BigInt(amount.whole), decimals) + BigInt(if fraction == "" then "0" else fraction)
  }

  /** The accepted strings are exactly the texts of plain decimals, and splitting at the point finds the parts. */
  lemma DecimalReads(raw: string)
    ensures IsDecimal(raw) <==> Read(raw).Valid() && Read(raw).Text() == raw
  {
    var n := LeadingDigits(raw);
    LeadingDigitsFit(raw);
    if IsDecimal(raw) {
      var p := Plain(raw[..n], if n == |raw| then "" else raw[n + 1..]);
      assert p.Text() == raw;
      SplitPlain(p);
    } else if Read(raw).Valid() && Read(raw).Text() == raw {
      LeadingOfPlain(Read(raw));
    }
  }

  lemma {:induction false} LeadingOfConcat(a: string, b: string)
    requires AllDigits(a) && (b == "" || !IsDigit(b[0]))
    ensures LeadingDigits(a + b) == |a|
  {
    if a == "" {
      assert a + b == b;
    } else {
      assert (a + b)[1..] == a[1..] + b;
      LeadingOfConcat(a[1..], b);
    }
  }

  lemma LeadingOfPlain(p: Plain)
    requires p.Valid()
    ensures IsDecimal(p.Text())
  {
    if p.fraction == "" {
      LeadingOfConcat(p.whole, "");
      assert p.whole + "" == p.whole;
    } else {
      LeadingOfConcat(p.whole, "." + p.fraction);
      assert p.Text() == p.whole + ("." + p.fraction);
      assert p.Text()[|p.whole| + 1..] == p.fraction;
    }
  }

  // ---------------------------------------------------------------- exactness

  /** The amount, times `10^decimals`, is exactly `units`. */
  predicate IsExactly(amount: Plain, decimals: nat, units: nat)
    requires amount.Valid()
  {
    Shift(units, |amount.fraction|) == Shift(amount.Numerator(), decimals)
  }

  /** An amount with at most `decimals` places is always a whole number of units. */
  lemma UnitsOfShort(amount: Plain, decimals: nat, units: nat)
    requires amount.Valid() && |amount.fraction| <= decimals
    ensures Units(amount, decimals) == Shift(amount.Numerator(), decimals - |amount.fraction|)
    ensures IsExactly(amount, decimals, units) <==> units == Units(amount, decimals)
  {
    ShortValues(amount, decimals);
    ShortIsExact(units, BigInt(amount.whole), BigInt(amount.fraction), |amount.fraction|, decimals - |amount.fraction|);
  }

  lemma ShortValues(amount: Plain, decimals: nat)
    requires amount.Valid() && |amount.fraction| <= decimals
    ensures Units(amount, decimals)
            == Shift(BigInt(amount.whole), decimals) + Shift(BigInt(amount.fraction), decimals - |amount.fraction|)
    ensures amount.Numerator() == Shift(BigInt(amount.whole), |amount.fraction|) + BigInt(amount.fraction)
  {
    PaddedValue(amount.fraction, decimals);
    ValueConcat(amount.whole, amount.fraction);
  }

  lemma ShortIsExact(units: nat, whole: nat, fraction: nat, f: nat, more: nat)
    ensures var n := Shift(whole, f) + fraction;
            var sum := Shift(whole, f + more) + Shift(fraction, more);
            sum == Shift(n, more) && (Shift(units, f) == Shift(n, more + f) <==> units == sum)
  {
    var n := Shift(whole, f) + fraction;
    ShiftSum(Shift(whole, f), fraction, more);
    ShiftAdd(whole, f, more);
    ShiftAdd(n, more, f);
    ShiftOrder(units, Shift(n, more), f);
  }

  lemma PaddedValue(fraction: string, decimals: nat)
    requires AllDigits(fraction) && |fraction| <= decimals
    ensures var padded := PadEnd(fraction, decimals);
            AllDigits(padded) && BigInt(if padded == "" then "0" else padded) == Shift(BigInt(fraction), decimals - |fraction|)
  {
    var zeros := Repeat('0', decimals - |fraction|);
    ValueConcat(fraction, zeros);
    ValueOfZeros(decimals - |fraction|);
    assert BigInt("0") == 0 by {
      assert "0"[..0] == "";
    }
  }

  /** An amount with more places is a whole number of units exactly when the extra digits are zeros. */
  lemma UnitsOfLong(amount: Plain, decimals: nat, units: nat)
    requires amount.Valid() && |amount.fraction| > decimals
    ensures IsExactly(amount, decimals, units) <==> OnlyZeros(amount.fraction[decimals..]) && units == Units(amount, decimals)
    ensures OnlyZeros(amount.fraction[decimals..]) ==> (amount.Numerator() == 0 <==> Units(amount, decimals) == 0)
  {
    var tail := amount.fraction[decimals..];
    LongValues(amount, decimals);
    ZeroValue(tail);
    LongIsExact(units, Units(amount, decimals), BigInt(tail), |tail|, decimals);
  }

  lemma LongValues(amount: Plain, decimals: nat)
    requires amount.Valid() && |amount.fraction| > decimals
    ensures var tail := amount.fraction[decimals..];
            && AllDigits(tail) && BigInt(tail) < Pow10(|tail|)
            && amount.Numerator() == Shift(Units(amount, decimals), |tail|) + BigInt(tail)
  {
    var front, tail := amount.fraction[..decimals], amount.fraction[decimals..];
    ValueConcat(amount.whole, amount.fraction);
    ValueOfParts(amount.fraction, decimals);
    PaddedValue(front, decimals);
    ShiftAdd(BigInt(amount.whole), decimals, |tail|);
    ShiftSum(Shift(BigInt(amount.whole), decimals), BigInt(front), |tail|);
  }

  lemma LongIsExact(units: nat, kept: nat, tail: nat, dropped: nat, decimals: nat)
    requires tail < Pow10(dropped)
    ensures Shift(units, decimals + dropped) == Shift(Shift(kept, dropped) + tail, decimals) <==> units == kept && tail == 0
    ensures tail == 0 ==> (Shift(kept, dropped) + tail == 0 <==> kept == 0)
  {
    ShiftAdd(units, dropped, decimals);
    ShiftOrder(Shift(units, dropped), Shift(kept, dropped) + tail, decimals);
    ShiftOrder(units, kept, dropped);
    ShiftOrder(kept, units, dropped);
    ShiftOrder(0, kept, dropped);
  }

  /** Every outcome, in terms of the exact value of the amount: success means a positive whole number of units. */
  lemma ConvertsExactly(raw: string, decimals: nat, units: nat)
    ensures DecimalToSmallestUnits(raw, decimals) == Ok(Digits(units))
            <==> IsDecimal(raw) && Read(raw).Valid() && units > 0 && IsExactly(Read(raw), decimals, units)
    ensures DecimalToSmallestUnits(raw, decimals) == Err(NotDecimal) <==> !IsDecimal(raw)
    ensures DecimalToSmallestUnits(raw, decimals) == Err(NotPositive)
            <==> IsDecimal(raw) && Read(raw).Valid() && Read(raw).Numerator() == 0
    ensures DecimalToSmallestUnits(raw, decimals) == Err(TooPrecise) && Read(raw).Valid() ==> !IsExactly(Read(raw), decimals, units)
  {
    DecimalReads(raw);
    if IsDecimal(raw) {
      var amount := Read(raw);
      ZeroNumerator(amount, decimals);
      if |amount.fraction| <= decimals {
        UnitsOfShort(amount, decimals, units);
      } else {
        UnitsOfLong(amount, decimals, units);
      }
      ValueOfDigits(units);
      ValueOfDigits(Units(amount, decimals));
    }
  }

  /** The precision error is raised exactly for amounts that are no whole number of units. */
  lemma TooPreciseExactly(raw: string, decimals: nat)
    ensures DecimalToSmallestUnits(raw, decimals) == Err(TooPrecise)
            <==> IsDecimal(raw) && Read(raw).Valid() && forall units: nat :: !IsExactly(Read(raw), decimals, units)
  {
    DecimalReads(raw);
    if DecimalToSmallestUnits(raw, decimals) == Err(TooPrecise) {
      forall units: nat
        ensures !IsExactly(Read(raw), decimals, units)
      {
        ConvertsExactly(raw, decimals, units);
      }
    } else if IsDecimal(raw) {
      var amount := Read(raw);
      var units := Units(amount, decimals);
      if |amount.fraction| <= decimals {
        UnitsOfShort(amount, decimals, units);
      } else {
        UnitsOfLong(amount, decimals, units);
      }
      assert IsExactly(amount, decimals, units);
    }
  }

  lemma ZeroNumerator(amount: Plain, decimals: nat)
    requires amount.Valid()
    ensures amount.Numerator() == 0 && |amount.fraction| > decimals ==> OnlyZeros(amount.fraction[decimals..])
    ensures |amount.fraction| <= decimals ==> (amount.Numerator() == 0 <==> Units(amount, decimals) == 0)
  {
    ZeroValue(amount.whole + amount.fraction);
    if |amount.fraction| > decimals {
      assert forall i :: 0 <= i < |amount.fraction| ==> (amount.whole + amount.fraction)[|amount.whole| + i] == amount.fraction[i];
    } else {
      UnitsOfShort(amount, decimals, 0);
      ShiftOrder(0, amount.Numerator(), decimals - |amount.fraction|);
    }
  }

  // ---------------------------------------------------------------- round trips with the display

  lemma ExactWhenAllShown(p: Plain, amount: nat, decimals: nat)
    requires p.Valid() && |p.fraction| <= decimals && Truncates(p, amount, decimals, decimals)
    ensures IsExactly(p, decimals, amount)
  {
    assert Pow10(0) == 1;
    ShiftAdd(p.Numerator(), decimals - |p.fraction|, |p.fraction|);
  }

  /** With every place shown, the conversion inverts the display of any positive amount once commas are removed. */
  lemma ConversionUndoesDisplay(raw: string, decimals: nat, maxFractionDigits: nat)
    requires raw != "" && AllDigits(raw) && BigInt(raw) > 0 && maxFractionDigits >= decimals
    ensures DecimalToSmallestUnits(RemoveCommas(FormatBaseUnits(raw, decimals, maxFractionDigits)), decimals)
            == Ok(Digits(BigInt(raw)))
  {
    assert SignOf(raw) == "" && DigitsOf(raw) == raw;
    BelowSmallestExactlyForDust(raw, decimals, maxFractionDigits);
    DisplayForms(raw, decimals, maxFractionDigits);
    var p := Shown(raw, decimals, maxFractionDigits);
    ShownTruncates(raw, decimals, maxFractionDigits);
    GroupingUndone(p);
    assert "" + GroupDigits(p.Text()) == GroupDigits(p.Text());
    SplitPlain(p);
    LeadingOfPlain(p);
    ExactWhenAllShown(p, BigInt(raw), decimals);
    ConvertsExactly(p.Text(), decimals, BigInt(raw));
  }

  /** Displaying a converted amount with every place shown gives the amount back, as a value. */
  lemma DisplayUndoesConversion(raw: string, decimals: nat, maxFractionDigits: nat, units: nat)
    requires DecimalToSmallestUnits(raw, decimals) == Ok(Digits(units)) && maxFractionDigits >= decimals
    ensures var text := FormatBaseUnits(Digits(units), decimals, maxFractionDigits);
            var amount, shown := Read(raw), Read(RemoveCommas(text));
            && amount.Valid() && shown.Valid()
            && Shift(amount.Numerator(), |shown.fraction|) == Shift(shown.Numerator(), |amount.fraction|)
  {
    ConvertsExactly(raw, decimals, units);
    ValueOfDigits(units);
    var digits := Digits(units);
    assert SignOf(digits) == "" && DigitsOf(digits) == digits;
    BelowSmallestExactlyForDust(digits, decimals, maxFractionDigits);
    DisplayTruncates(digits, decimals, maxFractionDigits);
    var text := FormatBaseUnits(digits, decimals, maxFractionDigits);
    assert text[0..] == text;
    var amount, shown := Read(raw), Read(RemoveCommas(text));
    ExactWhenAllShown(shown, units, decimals);
    SameValue(amount.Numerator(), |amount.fraction|, shown.Numerator(), |shown.fraction|, decimals, units);
  }

  lemma SameValue(n: nat, p: nat, m: nat, q: nat, d: nat, units: nat)
    requires Shift(units, p) == Shift(n, d) && Shift(units, q) == Shift(m, d)
    ensures Shift(n, q) == Shift(m, p)
  {
    ShiftAdd(n, d, q);
    ShiftAdd(n, q, d);
    ShiftAdd(m, d, p);
    ShiftAdd(m, p, d);
    ShiftAdd(units, p, q);
    ShiftAdd(units, q, p);
    ShiftOrder(Shift(n, q), Shift(m, p), d);
  }
}
