/** Machine integers, options, sums and the decimal printing of C++ streams. */
module Basics {

  datatype Option<+T> = None | Some(value: T) {
    predicate IsFailure() {
      None?
    }

    function PropagateFailure<U>(): Option<U>
      requires None?
    {
      None
    }

    function Extract(): T
      requires Some?
    {
      value
    }
  }

  const TWO_16 := 0x1_0000
  const TWO_32 := 0x1_0000_0000
  const TWO_64 := 0x1_0000_0000_0000_0000
  const INT_MAX := 0x7FFF_FFFF

  type u16 = x: int | 0 <= x < 0x1_0000
  type u64 = x: int | 0 <= x < 0x1_0000_0000_0000_0000

  // uint64_t increment
  function Successor(x: u64): (r: u64)
    ensures r == (x + 1) % TWO_64
  {
    if x == TWO_64 - 1 then 0 else x + 1
  }

  function Min(a: int, b: int): int {
    if a <= b then a else b
  }

  function Pow2(n: nat): nat {
    if n == 0 then 1 else 2 * Pow2(n - 1)
  }

  lemma {:induction false} Pow2Positive(n: nat)
    ensures Pow2(n) >= 1
  {
    if n != 0 {
      Pow2Positive(n - 1);
    }
  }

  function Sum(amounts: seq<u64>): nat {
    if amounts == [] then 0 else amounts[0] + Sum(amounts[1..])
  }

  lemma {:induction false} SumAppend(a: seq<u64>, b: seq<u64>)
    ensures Sum(a + b) == Sum(a) + Sum(b)
  {
    if a == [] {
      assert a + b == b;
    } else {
      assert (a + b)[1..] == a[1..] + b;
      SumAppend(a[1..], b);
    }
  }

  // Conversion of a 64-bit value to a 32-bit signed int: the low 32 bits, read as two's complement.
  function ToInt32(x: int): (r: int)
    ensures -INT_MAX - 1 <= r <= INT_MAX && (r - x) % TWO_32 == 0
  {
    var low := x % TWO_32;
    if low > INT_MAX then low - TWO_32 else low
  }

  /** std::accumulate over amounts with an accumulator that starts from the int literal 0:
      each partial sum is formed in 64 bits and stored back into 32 signed bits. */
  function Accumulate32(accumulator: int, amounts: seq<u64>): int
    decreases amounts
  {
    if amounts == [] then accumulator
    else Accumulate32(ToInt32(accumulator + amounts[0]), amounts[1..])
  }

  lemma ToInt32Congruence(a: int, b: int)
    ensures ToInt32(a) == ToInt32(b) <==> a % TWO_32 == b % TWO_32
  {
  }

  lemma ToInt32Absorbs(a: int, b: int)
    ensures ToInt32(ToInt32(a) + b) == ToInt32(a + b)
  {
    ToInt32Congruence(ToInt32(a) + b, a + b);
  }

  lemma {:induction false} Accumulate32IsLowBits(accumulator: int, amounts: seq<u64>)
    requires accumulator == ToInt32(accumulator)
    ensures Accumulate32(accumulator, amounts) == ToInt32(accumulator + Sum(amounts))
    decreases amounts
  {
    if amounts != [] {
      var next := ToInt32(accumulator + amounts[0]);
      Accumulate32IsLowBits(next, amounts[1..]);
      ToInt32Absorbs(accumulator + amounts[0], Sum(amounts[1..]));
    }
  }

  /** Two wrapped accumulations agree exactly when the true sums agree modulo 2^32. */
  lemma Accumulate32Compares(a: seq<u64>, b: seq<u64>)
    ensures Accumulate32(0, a) == Accumulate32(0, b) <==> Sum(a) % TWO_32 == Sum(b) % TWO_32
  {
    Accumulate32IsLowBits(0, a);
    Accumulate32IsLowBits(0, b);
    ToInt32Congruence(Sum(a), Sum(b));
  }

  // Decimal text of an unsigned integer, as operator<< prints it.

  function Digit(d: nat): char
    requires d < 10
  {
    '0' + d as char
  }

  function Decimal(n: nat): (text: string)
    ensures text != [] && forall i :: 0 <= i < |text| ==> '0' <= text[i] <= '9'
  {
    if n < 10 then [Digit(n)] else Decimal(n / 10) + [Digit(n % 10)]
  }

  function DecimalValue(text: string): nat
    requires forall i :: 0 <= i < |text| ==> '0' <= text[i] <= '9'
  {
    if text == [] then 0
    else DecimalValue(text[..|text| - 1]) * 10 + (text[|text| - 1] - '0') as nat
  }

  lemma {:induction false} DecimalRoundTrip(n: nat)
    ensures DecimalValue(Decimal(n)) == n
  {
    if n < 10 {
      assert Decimal(n) == [Digit(n)];
      assert DecimalValue([]) == 0;
    } else {
      DecimalRoundTrip(n / 10);
      assert Decimal(n)[..|Decimal(n)| - 1] == Decimal(n / 10);
    }
  }

  lemma DecimalInjective(a: nat, b: nat)
    requires Decimal(a) == Decimal(b)
    ensures a == b
  {
    DecimalRoundTrip(a);
    DecimalRoundTrip(b);
  }
}
