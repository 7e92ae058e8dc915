/** Room sequences as unsigned 64-bit numbers and as the decimal text the bridge exchanges. */
module SequenceText {
  import opened Domain

  const DIGITS: nat := 20

  type Sequence = n: nat | n <= MAX_UINT64

  predicate IsDigit(c: char) {
    '0' <= c <= '9'
  }

  function DigitOf(c: char): (d: nat)
    requires IsDigit(c)
    ensures d <= 9
  {
    c as int - '0' as int
  }

  predicate AllDigits(text: string) {
    forall i :: 0 <= i < |text| ==> IsDigit(text[i])
  }

  /** The number a digit string denotes. */
  function Value(text: string): nat
    requires AllDigits(text)
  {
    if text == [] then 0 else 10 * Value(text[..|text| - 1]) + DigitOf(text[|text| - 1])
  }

  /** The texts the client accepts: one to twenty digits that fit in 64 bits. */
  predicate IsSequence(text: string) {
    0 < |text| <= DIGITS && AllDigits(text) && Value(text) <= MAX_UINT64
  }

  function Parsed(text: string): Option<Sequence> {
    if IsSequence(text) then Some(Value(text)) else None
  }

  /** Reading further digits never makes the number smaller. */
  lemma {:induction false} PrefixIsSmaller(text: string, k: nat)
    requires AllDigits(text) && k <= |text|
    ensures Value(text[..k]) <= Value(text)
    decreases |text|
  {
    if k == |text| {
      assert text[..k] == text;
    } else {
      var shorter := text[..|text| - 1];
      assert shorter[..k] == text[..k];
      PrefixIsSmaller(shorter, k);
    }
  }

  /** The client's parser: digit by digit, refusing the step that would overflow. */
  method ParseSequence(text: string) returns (r: Option<Sequence>)
    ensures r == Parsed(text)
  {
    if |text| == 0 {
      return None;
    }
    var value: Sequence := 0;
    var index := 0;
    while index < |text|
      invariant index <= |text| && index <= DIGITS
      invariant AllDigits(text[..index]) && Value(text[..index]) == value
    {
      if index >= DIGITS {
        return None;
      }
      if !IsDigit(text[index]) {
        return None;
      }
      var digit := DigitOf(text[index]);
      assert text[..index + 1][..index] == text[..index];
      if value > (MAX_UINT64 - digit) / 10 {
        if AllDigits(text) {
          PrefixIsSmaller(text, index + 1);
        }
        return None;
      }
      value := value * 10 + digit;
      index := index + 1;
    }
    assert text[..|text|] == text;
    return Some(value);
  }

  function DigitChar(d: nat): (c: char)
    requires d <= 9
    ensures IsDigit(c) && DigitOf(c) == d
  {
    ('0' as int + d) as char
  }

  /** Decimal printing without leading zeros. */
  function Format(n: nat): (text: string)
    ensures AllDigits(text) && |text| > 0
  {
    if n < 10 then [DigitChar(n)] else Format(n / 10) + [DigitChar(n % 10)]
  }

  lemma {:induction false} FormatDenotes(n: nat)
    ensures Value(Format(n)) == n
  {
    var text := Format(n);
    if n >= 10 {
      FormatDenotes(n / 10);
      assert text[..|text| - 1] == Format(n / 10);
    } else {
      assert text[..0] == [];
    }
  }

  function Pow10(k: nat): (p: nat)
    ensures p > 0
  {
    if k == 0 then 1 else 10 * Pow10(k - 1)
  }

  lemma {:induction false} FormatIsShort(n: nat, k: nat)
    requires k > 0 && n < Pow10(k)
    ensures |Format(n)| <= k
    decreases k
  {
    if n >= 10 {
      assert k > 1;
      FormatIsShort(n / 10, k - 1);
    }
  }

  lemma TwentyDigitsSuffice()
    ensures MAX_UINT64 < Pow10(DIGITS)
  {
    assert Pow10(4) == 10_000;
    assert Pow10(8) == 100_000_000 by {
      assert Pow10(6) == 1_000_000;
    }
    assert Pow10(12) == 1_000_000_000_000 by {
      assert Pow10(10) == 10_000_000_000;
    }
    assert Pow10(16) == 10_000_000_000_000_000 by {
      assert Pow10(14) == 100_000_000_000_000;
    }
    assert Pow10(20) == 100_000_000_000_000_000_000 by {
      assert Pow10(18) == 1_000_000_000_000_000_000;
    }
  }

  /** Every sequence survives printing and parsing. */
  lemma ParseFormat(n: Sequence)
    ensures Parsed(Format(n)) == Some(n)
  {
    FormatDenotes(n);
    TwentyDigitsSuffice();
    FormatIsShort(n, DIGITS);
  }
}
