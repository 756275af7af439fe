/** The factorial program: `calculate_factorial` and what `main` makes of
    the one line it reads. */
module Factorial {
  import opened Wrappers
  import opened Text

  /** `calculate_factorial`, which hands `n` to `math.factorial`:
      n * (n - 1) * ... * 1, and 1 for 0. It is never below 1, nor below `n`. */
  function Factorial(n: nat): (r: nat)
    ensures r >= 1
    ensures r >= n
  {
    if n == 0 then 1 else n * Factorial(n - 1)
  }

  /** The product lo * (lo + 1) * ... * hi, counted from the low end; the
      empty product is 1. */
  function Product(lo: nat, hi: nat): nat
    decreases hi + 1 - lo
  {
    if lo > hi then 1 else lo * Product(lo + 1, hi)
  }

  /** A product splits at any point `m` into the factors up to `m` and the
      factors above it. */
  lemma {:induction false} ProductSplit(lo: nat, m: nat, hi: nat)
    requires lo <= m + 1 && m <= hi
    ensures Product(lo, hi) == Product(lo, m) * Product(m + 1, hi)
    decreases m + 1 - lo
  {
    if lo <= m {
      ProductSplit(lo + 1, m, hi);
      MulAssociates(lo, Product(lo + 1, m), Product(m + 1, hi));
    }
  }

  /** The factorial is the product of 1 .. n. */
  lemma {:induction false} FactorialIsProduct(n: nat)
    ensures Factorial(n) == Product(1, n)
  {
    if n > 0 {
      FactorialIsProduct(n - 1);
      ProductSplit(1, n - 1, n);
    }
  }

  lemma MulAssociates(a: nat, b: nat, c: nat)
    ensures a * (b * c) == (a * b) * c
  {
  }

  /** The factorial never decreases. */
  lemma {:induction false} FactorialGrows(m: nat, n: nat)
    requires m <= n
    ensures Factorial(m) <= Factorial(n)
    decreases n - m
  {
    if m < n {
      FactorialGrows(m, n - 1);
      MulGrows(n, Factorial(n - 1));
    }
  }

  lemma MulGrows(k: nat, f: nat)
    requires k >= 1
    ensures f <= k * f
  {
  }

  function Pow10(k: nat): nat
  {
    if k == 0 then 1 else 10 * Pow10(k - 1)
  }

  /** A number below 10^k has at most k digits (and at least one). */
  lemma {:induction false} FormatNatShort(n: nat, k: nat)
    requires 1 <= k && n < Pow10(k)
    ensures |FormatNat(n)| <= k
  {
    if n >= 10 {
      assert n / 10 < Pow10(k - 1);
      FormatNatShort(n / 10, k - 1);
    }
  }

  /** The values `test_factorial` checks. */
  lemma FactorialTestCases()
    ensures Factorial(0) == 1
    ensures Factorial(1) == 1
    ensures Factorial(5) == 120
    ensures Factorial(10) == 3628800
  {
  }

  /** The largest argument `math.factorial` takes, the C `long` of a 64-bit
      Linux build; a larger one raises OverflowError. */
  const LongMax := 0x7fff_ffff_ffff_ffff

  /** What `main` prints for a line of input. */
  datatype RunOutcome =
    | InvalidInput                    // ValueError, from `int` or from `str` of the factorial
    | NegativeRefused(negative: int)  // factorial is defined for n >= 0 only
    | TooLarge                        // OverflowError from `math.factorial`
    | Computed(number: nat, factorial: nat, digitCount: Option<nat>)

  /** `main` on the line `userInput`: parse it, refuse a negative number,
      otherwise compute its factorial and print it, with the number of
      digits above 10. Printing the factorial writes it with `str`, which
      raises ValueError beyond `MaxStrDigits` digits. */
  function Run(userInput: string): RunOutcome
  {
    match ParseInt(userInput)
    case None => InvalidInput
    case Some(n) =>
      if n < 0 then NegativeRefused(n)
      else if n > LongMax then TooLarge
      else
        var f := Factorial(n);
        var text := FormatNat(f);
        if |text| > MaxStrDigits then InvalidInput
        else Computed(n, f, if n > 10 then Some(|text|) else None)
  }

  /** The cases of `main`: a line `int` rejects, or a factorial too long for
      `str`, is reported as invalid input; a negative number is refused; a
      number above `LongMax` overflows; any other number gets its factorial,
      with the digit count exactly when it exceeds 10. */
  lemma RunCases(userInput: string)
    ensures var p := ParseInt(userInput);
      Run(userInput).InvalidInput? <==>
        p.None? || (0 <= p.value <= LongMax && |FormatNat(Factorial(p.value))| > MaxStrDigits)
    ensures Run(userInput).NegativeRefused? <==>
      ParseInt(userInput).Some? && ParseInt(userInput).value < 0
    ensures Run(userInput).NegativeRefused? ==>
      ParseInt(userInput) == Some(Run(userInput).negative)
    ensures Run(userInput).TooLarge? <==>
      ParseInt(userInput).Some? && ParseInt(userInput).value > LongMax
    ensures var r := Run(userInput);
      r.Computed? ==>
        && ParseInt(userInput) == Some(r.number)
        && r.number <= LongMax
        && r.factorial == Factorial(r.number)
        && |FormatNat(r.factorial)| <= MaxStrDigits
        && (r.digitCount.Some? <==> r.number > 10)
        && (r.digitCount.Some? ==> r.digitCount.value == |FormatNat(r.factorial)|)
  {
  }

  /** A number written out by `str` and read back by `main`: a negative one
      is refused, one above `LongMax` overflows, and any other is computed
      exactly when its factorial has at most `MaxStrDigits` digits. Numbers
      whose own text is too long are invalid input. */
  lemma RunWritten(n: int)
    ensures n < 0 ==>
      Run(FormatInt(n)) == if |FormatNat(-n)| <= MaxStrDigits then NegativeRefused(n) else InvalidInput
    ensures n > LongMax ==>
      Run(FormatInt(n)) == if |FormatNat(n)| <= MaxStrDigits then TooLarge else InvalidInput
    ensures 0 <= n <= LongMax ==>
      (Run(FormatInt(n)).Computed? <==> |FormatNat(Factorial(n))| <= MaxStrDigits)
    ensures var r := Run(FormatInt(n));
      r.Computed? ==> (r.number == n && r.factorial == Factorial(n))
  {
    ParseFormatInt(n);
    if 0 <= n <= LongMax {
      assert Pow10(5) == 100000;
      assert Pow10(10) == 10000000000;
      assert Pow10(15) == 1000000000000000;
      assert LongMax < Pow10(19);
      FormatNatShort(n, 19);
    }
  }

  /** The numbers `main` computes form an initial segment: once a factorial
      is too long to print, so is every larger one. */
  lemma ComputedBelow(m: nat, n: nat)
    requires m <= n
    ensures Run(FormatInt(n)).Computed? ==> Run(FormatInt(m)).Computed?
  {
    RunWritten(m);
    RunWritten(n);
    FactorialGrows(m, n);
    FormatNatGrows(Factorial(m), Factorial(n));
  }
}
