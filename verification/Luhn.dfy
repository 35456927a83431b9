/** Card numbers and their check digit, Annex B of ISO/IEC 7812-1. */
module Luhn {
  import opened Calendar
  import opened Iso

  datatype PanResult = Pan(number: string) | BadBin

  /** What a digit counts for. */
  function Weigh(d: int, doubled: bool): int {
    if !doubled then d else if 2 * d > 9 then 2 * d - 9 else 2 * d
  }

  /** The weighed sum, the last digit doubled or not and every second one from there. */
  function Total(s: string, doubled: bool): int {
    if s == "" then 0
    else Total(s[..|s| - 1], !doubled) + Weigh(DigitValue(s[|s| - 1]), doubled)
  }

  /** A number passes when its sum, the check digit counted once, is a multiple of ten. */
  predicate Passes(number: string) {
    Total(number, false) % 10 == 0
  }

  method CheckDigit(partial: string) returns (check: int)
    requires Digits(partial)
    ensures check == (10 - Total(partial, true) % 10) % 10
    ensures 0 <= check < 10 && (Total(partial, true) + check) % 10 == 0
  {
    var sum := 0;
    var i, doubled := |partial| - 1, true;
    assert partial[..|partial|] == partial;
    while i >= 0
      invariant -1 <= i < |partial|
      invariant sum + Total(partial[..i + 1], doubled) == Total(partial, true)
    {
      assert partial[..i + 1][..i] == partial[..i];
      var d := DigitValue(partial[i]);
      if doubled {
        d := d * 2;
        if d > 9 {
          d := d - 9;
        }
      }
      sum := sum + d;
      i, doubled := i - 1, !doubled;
    }
    assert partial[..0] == "";
    CheckCompletes(sum);
    check := (10 - sum % 10) % 10;
  }

  lemma CheckCompletes(sum: int)
    ensures (sum + (10 - sum % 10) % 10) % 10 == 0
  {
  }

  /** `generatePan`: a six-digit issuer prefix, nine random digits and the check digit. */
  method GeneratePan(bin: string, random: string) returns (r: PanResult)
    requires |random| == 9 && Digits(random)
    ensures r.BadBin? <==> |bin| != 6 || !Digits(bin)
    ensures r.Pan? ==> |r.number| == 16 && Digits(r.number) && bin + random <= r.number && Passes(r.number)
  {
    if |bin| != 6 || !Digits(bin) {
      return BadBin;
    }
    var partial := bin + random;
    var check := CheckDigit(partial);
    r := Pan(partial + [Digit(check)]);
    AppendedDigit(partial, check);
  }

  lemma AppendedDigit(partial: string, check: int)
    requires 0 <= check < 10
    ensures Total(partial + [Digit(check)], false) == Total(partial, true) + check
  {
    var s := partial + [Digit(check)];
    assert s[..|s| - 1] == partial;
  }

  lemma NextDigit(s: string, i: nat, doubled: bool)
    requires i < |s|
    ensures Total(s[..i + 1], doubled) == Total(s[..i], !doubled) + Weigh(DigitValue(s[i]), doubled)
  {
    assert s[..i + 1][..i] == s[..i];
  }

  lemma ElevenDigits(s: string)
    requires |s| == 11
    ensures Total(s, false) ==
            Weigh(DigitValue(s[0]), false) + Weigh(DigitValue(s[1]), true) + Weigh(DigitValue(s[2]), false)
            + Weigh(DigitValue(s[3]), true) + Weigh(DigitValue(s[4]), false) + Weigh(DigitValue(s[5]), true)
            + Weigh(DigitValue(s[6]), false) + Weigh(DigitValue(s[7]), true) + Weigh(DigitValue(s[8]), false)
            + Weigh(DigitValue(s[9]), true) + Weigh(DigitValue(s[10]), false)
  {
    hide Total, Weigh;
    Weights();
    NextDigit(s, 0, false);
    NextDigit(s, 1, true);
    NextDigit(s, 2, false);
    NextDigit(s, 3, true);
    NextDigit(s, 4, false);
    NextDigit(s, 5, true);
    NextDigit(s, 6, false);
    NextDigit(s, 7, true);
    NextDigit(s, 8, false);
    NextDigit(s, 9, true);
    NextDigit(s, 10, false);
    assert s[..0] == "" && s[..11] == s;
  }

  /** The example number of the algorithm's literature passes, and its neighbour does not. */
  lemma KnownNumber()
    ensures Passes("79927398713") && !Passes("79927398710")
  {
    hide Total, Weigh;
    Weights();
    ElevenDigits("79927398713");
    ElevenDigits("79927398710");
  }

  lemma Weights()
    ensures Total("", true) == 0
    ensures forall d :: Weigh(d, false) == d
    ensures Weigh(9, true) == 9 && Weigh(2, true) == 4 && Weigh(3, true) == 6 && Weigh(8, true) == 7 && Weigh(1, true) == 2
  {
  }

  /** Exactly one digit completes a number: the one the code appends. */
  lemma CheckDigitIsTheOnlyOne(partial: string, d: int)
    requires Digits(partial) && 0 <= d < 10
    ensures Passes(partial + [Digit(d)]) <==> d == (10 - Total(partial, true) % 10) % 10
  {
    AppendedDigit(partial, d);
    OnlyCompletion(Total(partial, true), d);
  }

  lemma OnlyCompletion(sum: int, d: int)
    requires 0 <= d < 10
    ensures (sum + d) % 10 == 0 <==> d == (10 - sum % 10) % 10
  {
    assert (sum + d) % 10 == (sum % 10 + d) % 10;
  }

  /** Whether the digit at `i` is doubled. */
  function DoubledAt(n: nat, doubled: bool, i: nat): bool
    requires i < n
    decreases n
  {
    if i == n - 1 then doubled else DoubledAt(n - 1, !doubled, i)
  }

  /** Changing one digit moves the sum by the difference of its weights. */
  lemma {:induction false} ChangedDigit(s: string, doubled: bool, i: nat, c: char)
    requires i < |s|
    ensures var w := DoubledAt(|s|, doubled, i);
            Total(s[i := c], doubled) == Total(s, doubled) - Weigh(DigitValue(s[i]), w) + Weigh(DigitValue(c), w)
  {
    var n := |s| - 1;
    var t := s[i := c];
    if i == n {
      assert t[..n] == s[..n];
    } else {
      ChangedDigit(s[..n], !doubled, i, c);
      assert t[..n] == s[..n][i := c];
    }
  }

  /** Distinct digits weigh differently, doubled or not. */
  lemma WeightsDiffer(a: int, b: int, doubled: bool)
    requires 0 <= a < 10 && 0 <= b < 10 && a != b
    ensures (Weigh(a, doubled) - Weigh(b, doubled)) % 10 != 0
  {
  }

  lemma ShiftExactly(sum: int, shift: int)
    requires sum % 10 == 0
    ensures (sum - shift) % 10 == 0 <==> shift % 10 == 0
  {
    var q, k, r := sum / 10, shift / 10, shift % 10;
    assert sum == 10 * q && shift == 10 * k + r;
    if r == 0 {
      QuotientUnique(sum - shift, 10, q - k, 0);
    } else {
      QuotientUnique(sum - shift, 10, q - k - 1, 10 - r);
    }
  }

  /** No single wrong digit passes, anywhere in a number of any length. */
  lemma OneWrongDigitFails(number: string, i: nat, c: char)
    requires Digits(number) && Passes(number) && i < |number| && '0' <= c <= '9' && c != number[i]
    ensures !Passes(number[i := c])
  {
    var w := DoubledAt(|number|, false, i);
    ChangedDigit(number, false, i, c);
    WeightsDiffer(DigitValue(number[i]), DigitValue(c), w);
    ShiftExactly(Total(number, false), Weigh(DigitValue(number[i]), w) - Weigh(DigitValue(c), w));
  }

  lemma {:induction false} NeighboursAlternate(n: nat, doubled: bool, i: nat)
    requires i + 1 < n
    ensures DoubledAt(n, doubled, i) == !DoubledAt(n, doubled, i + 1)
    decreases n
  {
    if i + 2 < n {
      NeighboursAlternate(n - 1, !doubled, i);
    }
  }

  lemma SwapWeights(a: int, b: int, w: bool)
    requires 0 <= a < 10 && 0 <= b < 10
    ensures (Weigh(a, w) + Weigh(b, !w) - Weigh(b, w) - Weigh(a, !w)) % 10 == 0 <==>
            a == b || (a == 0 && b == 9) || (a == 9 && b == 0)
  {
  }

  /** Two neighbouring digits swapped pass if and only if they are equal or are a 0 and a 9. */
  lemma SwappedNeighboursPassExactly(number: string, i: nat)
    requires Digits(number) && Passes(number) && i + 1 < |number|
    ensures var a, b := number[i], number[i + 1];
            Passes(number[i := b][i + 1 := a]) <==> a == b || (a == '0' && b == '9') || (a == '9' && b == '0')
  {
    var a, b := number[i], number[i + 1];
    var w := DoubledAt(|number|, false, i);
    NeighboursAlternate(|number|, false, i);
    ChangedDigit(number, false, i, b);
    ChangedDigit(number[i := b], false, i + 1, a);
    SwapWeights(DigitValue(a), DigitValue(b), w);
    ShiftExactly(Total(number, false), Weigh(DigitValue(a), w) + Weigh(DigitValue(b), !w)
                                       - Weigh(DigitValue(b), w) - Weigh(DigitValue(a), !w));
  }
}
