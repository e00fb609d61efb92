/**
 * Net weight and the per-40 billing quantity: the arithmetic of
 * `calculateFinalWeight`. Weights are integers here, so the per-40 figure is
 * exact.
 */
module Weighing {
  import opened Wrappers
  import opened Decimal

  /** The net weight: the distance between the two readings. */
  function FinalWeight(first: int, second: int): (r: nat)
    ensures r >= first - second && r >= second - first
    ensures r == first - second || r == second - first
  {
    if first >= second then first - second else second - first
  }

  /**
   * The per-40 figure of a net weight: whole units of 40, then a `.` and the
   * remainder out of 40, the `.` part left off when the remainder is zero.
   */
  function WeightPer40(final: nat): string
  {
    if final % 40 == 0 then NatToString(final / 40)
    else NatToString(final / 40) + "." + NatToString(final % 40)
  }

  /** `Math.round`: the nearest integer, halves rounded up. */
  function JsRound(x: real): int {
    (x + 0.5).Floor
  }

  /**
   * The per-40 figure computed the way the component writes it, with exact
   * real numbers in place of floating point: divide by 40, split off the
   * floor, scale the fraction back by 40 and round it.
   */
  function WeightPer40AsWritten(final: nat): string
  {
    var per40 := final as real / 40.0;
    var wholePart := per40.Floor;
    var decimalPart := per40 - wholePart as real;
    var decimalResult := decimalPart * 40.0;
    if decimalPart == 0.0 then IntToString(wholePart)
    else IntToString(wholePart) + "." + IntToString(JsRound(decimalResult))
  }

  /**
   * Reads a per-40 figure back into a net weight: the inverse of `WeightPer40`.
   * A `.` part must be a remainder below 40.
   */
  function DecodePer40(s: string): Option<nat>
  {
    var whole := DigitPrefix(s);
    var rest := s[|whole|..];
    if whole == [] then None
    else if rest == [] then Some(DigitsValue(whole) * 40)
    else if rest[0] == '.' && |rest| > 1 && AllDigits(rest[1..]) && DigitsValue(rest[1..]) < 40
    then Some(DigitsValue(whole) * 40 + DigitsValue(rest[1..]))
    else None
  }

  /** The net weight does not depend on which reading came first. */
  lemma FinalWeightSymmetric(a: int, b: int)
    ensures FinalWeight(a, b) == FinalWeight(b, a)
  {
  }

  /** Equal readings have zero net weight, and only they do. */
  lemma FinalWeightZero(a: int, b: int)
    ensures FinalWeight(a, b) == 0 <==> a == b
  {
  }

  /** The floor, fraction and rounding of the component equal integer `/` and `%`. */
  lemma AsWrittenAgrees(final: nat)
    ensures WeightPer40AsWritten(final) == WeightPer40(final)
  {
    var q, r := final / 40, final % 40;
    var per40 := final as real / 40.0;
    assert final == 40 * q + r;
    assert per40 == q as real + r as real / 40.0;
    assert 0.0 <= r as real / 40.0 < 1.0;
    assert per40.Floor == q;
    var decimalPart := per40 - q as real;
    assert decimalPart == r as real / 40.0;
    assert decimalPart * 40.0 == r as real;
    assert JsRound(r as real) == r;
    assert decimalPart == 0.0 <==> r == 0;
  }

  /**
   * The shape of the figure: a plain numeral exactly when the net weight is a
   * multiple of 40, otherwise `whole.remainder` with the remainder in 1..39.
   */
  lemma Per40Shape(final: nat)
    ensures final % 40 == 0 ==> AllDigits(WeightPer40(final)) && '.' !in WeightPer40(final)
    ensures final % 40 != 0 ==>
      && 1 <= final % 40 <= 39
      && WeightPer40(final) == NatToString(final / 40) + "." + NatToString(final % 40)
  {
  }

  /** `parseInt` of the figure reads its whole-unit part, `final / 40`. */
  lemma Per40WholePrefix(final: nat)
    ensures ParseInt(WeightPer40(final)) == Some(final / 40)
  {
    var q, r := final / 40, final % 40;
    var w := NatToString(q);
    if r == 0 {
      assert WeightPer40(final) == w;
      ParseIntOfNumeral(q, []);
      assert w + [] == w;
    } else {
      var tail := "." + NatToString(r);
      assert WeightPer40(final) == w + tail;
      ParseIntOfNumeral(q, tail);
    }
  }

  /** The figure loses nothing: it decodes back to the net weight. */
  lemma Per40RoundTrip(final: nat)
    ensures DecodePer40(WeightPer40(final)) == Some(final)
  {
    var w := NatToString(final / 40);
    NatToStringRoundTrip(final / 40);
    if final % 40 == 0 {
      DigitPrefixOfDigits(w, []);
      assert w + [] == w;
      assert WeightPer40(final)[|w|..] == [];
    } else {
      var f := NatToString(final % 40);
      var s := w + ("." + f);
      assert WeightPer40(final) == s;
      DigitPrefixOfDigits(w, "." + f);
      assert s[|w|..] == "." + f;
      assert ("." + f)[1..] == f;
      NatToStringRoundTrip(final % 40);
    }
  }

  /** Two net weights with the same figure are equal. */
  lemma Per40Injective(a: nat, b: nat)
    ensures WeightPer40(a) == WeightPer40(b) ==> a == b
  {
    Per40RoundTrip(a);
    Per40RoundTrip(b);
  }

  /** Worked figures: 80 is "2", 85 is "2.5", 83 is "2.3" and 150 is "3.30". */
  lemma Per40Examples()
    ensures WeightPer40(80) == "2"
    ensures WeightPer40(85) == "2.5"
    ensures WeightPer40(83) == "2.3"
    ensures WeightPer40(150) == "3.30"
  {
    assert NatToString(30) == NatToString(3) + [DigitChar(0)];
  }
}
