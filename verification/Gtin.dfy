// The GTIN check digit (section 7.9 of the GS1 General Specifications) and the validator
// that guards the EAN pool. Digits are ASCII.
module Gtin {

  type Digit = d: int | 0 <= d < 10 witness 0

  // A digit's share of the sum, by its distance from the right end.
  function Weighted(d: int, fromRight: nat): int {
    if fromRight % 2 == 0 then d else 3 * d
  }

  // Weighted sum of a whole code, check digit included: 1, 3, 1, 3, ... from the right.
  function CodeSum(code: seq<Digit>): int {
    if code == [] then 0 else Weighted(code[0], |code| - 1) + CodeSum(code[1..])
  }

  // The standard's own acceptance test.
  predicate Balanced(code: seq<Digit>) {
    CodeSum(code) % 10 == 0
  }

  predicate IsDigitChar(c: char) {
    '0' <= c <= '9'
  }

  predicate AllDigits(value: string) {
    forall i | 0 <= i < |value| :: IsDigitChar(value[i])
  }

  function DigitOf(c: char): Digit
    requires IsDigitChar(c)
  {
    (c as int) - ('0' as int)
  }

  function Digits(value: string): (ds: seq<Digit>)
    requires AllDigits(value)
    ensures |ds| == |value|
    ensures forall i | 0 <= i < |value| :: ds[i] == DigitOf(value[i])
  {
    seq(|value|, i requires 0 <= i < |value| => DigitOf(value[i]))
  }

  predicate GtinLength(n: int) {
    n == 8 || n == 12 || n == 13 || n == 14
  }

  predicate ValidGtin(value: string) {
    GtinLength(|value|) && AllDigits(value) && Balanced(Digits(value))
  }

  lemma {:induction false} LastDigitWeighsOne(body: seq<Digit>, d: Digit)
    ensures CodeSum(body + [d]) == CodeSum(body + [0]) + d
  {
    if body == [] {
      assert [] + [d] == [d] && [] + [0] == [0];
      assert CodeSum([d]) == Weighted(d, 0) + CodeSum([]);
    } else {
      LastDigitWeighsOne(body[1..], d);
      assert (body + [d])[1..] == body[1..] + [d];
      assert (body + [0])[1..] == body[1..] + [0];
    }
  }

  lemma PrependDigit(ds: seq<Digit>, lo: nat, hi: nat)
    requires lo < hi <= |ds|
    ensures CodeSum(ds[lo..hi] + [0]) == CodeSum(ds[lo + 1..hi] + [0]) + Weighted(ds[lo], hi - lo)
  {
    var longer := ds[lo..hi] + [0];
    assert longer[0] == ds[lo] && longer[1..] == ds[lo + 1..hi] + [0];
  }

  // Every body has exactly one check digit that balances it.
  lemma UniqueCheckDigit(body: seq<Digit>, d: Digit)
    ensures Balanced(body + [d]) <==> d == (10 - CodeSum(body + [0]) % 10) % 10
  {
    LastDigitWeighsOne(body, d);
  }

  lemma BalancedByLastDigit(ds: seq<Digit>, total: int)
    requires ds != [] && total == CodeSum(ds[..|ds| - 1] + [0])
    ensures Balanced(ds) <==> (10 - total % 10) % 10 == ds[|ds| - 1]
  {
    assert ds[..|ds| - 1] + [ds[|ds| - 1]] == ds;
    UniqueCheckDigit(ds[..|ds| - 1], ds[|ds| - 1]);
  }

  // The loop of the validator: the reversed body with weights 3, 1, 3, ...
  method WeightedBody(value: string) returns (total: int)
    requires value != "" && AllDigits(value)
    ensures total == CodeSum(Digits(value)[..|value| - 1] + [0])
  {
    ghost var ds := Digits(value);
    var n := |value| - 1;
    total := 0;
    for index := 0 to n
      invariant total == CodeSum(ds[n - index..n] + [0])
    {
      var digit: int := DigitOf(value[n - 1 - index]);
      PrependDigit(ds, n - 1 - index, n);
      total := total + (if index % 2 == 0 then 3 * digit else digit);
    }
    assert ds[0..n] == ds[..n];
  }

  method IsValidGtin(value: string) returns (valid: bool)
    ensures valid <==> ValidGtin(value)
    ensures valid <==> |value| in {8, 12, 13, 14} && AllDigits(value) && CodeSum(Digits(value)) % 10 == 0
  {
    if !GtinLength(|value|) || !AllDigits(value) {
      return false;
    }
    var total := WeightedBody(value);
    valid := (10 - total % 10) % 10 == DigitOf(value[|value| - 1]);
    BalancedByLastDigit(Digits(value), total);
  }

  lemma {:induction false} ReplaceDigit(code: seq<Digit>, i: nat, d: Digit)
    requires i < |code|
    ensures CodeSum(code[i := d]) == CodeSum(code) + Weighted(d, |code| - 1 - i) - Weighted(code[i], |code| - 1 - i)
  {
    if i == 0 {
      assert code[i := d][1..] == code[1..];
    } else {
      ReplaceDigit(code[1..], i - 1, d);
      assert code[i := d][1..] == code[1..][i - 1 := d];
    }
  }

  lemma DigitChangeShows(sum: int, a: Digit, b: Digit, fromRight: nat)
    requires sum % 10 == 0 && a != b
    ensures (sum + Weighted(b, fromRight) - Weighted(a, fromRight)) % 10 != 0
  {
  }

  // Any single wrong digit in an accepted code is detected.
  lemma SingleErrorDetected(code: seq<Digit>, i: nat, d: Digit)
    requires i < |code| && d != code[i]
    requires Balanced(code)
    ensures !Balanced(code[i := d])
  {
    ReplaceDigit(code, i, d);
    DigitChangeShows(CodeSum(code), code[i], d, |code| - 1 - i);
  }

  predicate IndistinguishableNeighbours(a: int, b: int) {
    a == b || a - b == 5 || b - a == 5
  }

  lemma SwapChangesSum(sum: int, a: Digit, b: Digit, fromRight: nat)
    requires sum % 10 == 0 && fromRight > 0
    ensures (sum + Weighted(b, fromRight) - Weighted(a, fromRight) + Weighted(a, fromRight - 1) - Weighted(b, fromRight - 1)) % 10 == 0
            <==> IndistinguishableNeighbours(a, b)
  {
  }

  // Exchanging two neighbours goes unnoticed exactly when they differ by 0 or 5.
  lemma AdjacentSwapDetected(code: seq<Digit>, i: nat)
    requires i + 1 < |code|
    requires Balanced(code)
    ensures Balanced(code[i := code[i + 1]][i + 1 := code[i]])
            <==> IndistinguishableNeighbours(code[i], code[i + 1])
  {
    var once := code[i := code[i + 1]];
    ReplaceDigit(code, i, code[i + 1]);
    ReplaceDigit(once, i + 1, code[i]);
    SwapChangesSum(CodeSum(code), code[i], code[i + 1], |code| - 1 - i);
  }

  // Shorter formats embed into longer ones by padding with zeros on the left.
  lemma {:induction false} ZeroPadding(code: seq<Digit>, zeros: nat)
    ensures Balanced(seq(zeros, _ => 0) + code) <==> Balanced(code)
    decreases zeros
  {
    var padded: seq<Digit> := seq(zeros, _ => 0) + code;
    if zeros == 0 {
      assert padded == code;
    } else {
      ZeroPadding(code, zeros - 1);
      assert padded[1..] == seq(zeros - 1, _ => 0) + code;
    }
  }
}
