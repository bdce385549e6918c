/** Blocks, chains, proof of work and cumulative difficulty. */
module Blocks {
  import opened Basics
  import opened Environment

  datatype Block = Block(
    index: u64, hash: string, previousHash: string, timestamp: int, data: string, difficulty: u16, nonce: u64)

  function BlockPreimage(w: World, index: u64, previousHash: string, timestamp: int, data: string,
                         difficulty: u16, nonce: u64): string {
    Decimal(index) + "," + previousHash + "," + w.formatTime(timestamp) + "," + data + ","
    + Decimal(difficulty) + "," + Decimal(nonce)
  }

  function Preimage(w: World, b: Block): string {
    BlockPreimage(w, b.index, b.previousHash, b.timestamp, b.data, b.difficulty, b.nonce)
  }

  function BlockHash(w: World, b: Block): string {
    w.hash(Preimage(w, b))
  }

  // The constructor is private: every block of the program comes from here or from Genesis.
  function MakeBlock(w: World, index: u64, previousHash: string, timestamp: int, data: string,
                     difficulty: u16, nonce: u64): (b: Block)
    ensures SelfConsistent(w, b)
  {
    var hash := w.hash(BlockPreimage(w, index, previousHash, timestamp, data, difficulty, nonce));
    Block(index, hash, previousHash, timestamp, data, difficulty, nonce)
  }

  function Genesis(w: World): Block {
    MakeBlock(w, 0, "", w.parseTime("2017-12-28T15:00:00Z"), "[]", 0, 0)
  }

  /** What is hashed for genesis, and for a block with a value of its own in every place. */
  lemma PreimageTexts(w: World, time: int)
    ensures Preimage(w, Genesis(w)) == "0,," + w.formatTime(w.parseTime("2017-12-28T15:00:00Z")) + ",[],0,0"
    ensures Preimage(w, MakeBlock(w, 7, "p", time, "d", 1, 2)) == "7,p," + w.formatTime(time) + ",d,1,2"
  {
    assert Decimal(0) == "0" && Decimal(7) == "7" && Decimal(1) == "1" && Decimal(2) == "2";
  }

  predicate SelfConsistent(w: World, b: Block) {
    b.hash == BlockHash(w, b)
  }

  predicate AllSelfConsistent(w: World, chain: seq<Block>) {
    forall i :: 0 <= i < |chain| ==> SelfConsistent(w, chain[i])
  }

  predicate IsNewBlockValid(w: World, next: Block, previous: Block) {
    && next.index == Successor(previous.index)
    && next.previousHash == BlockHash(w, previous)
    && next.hash == BlockHash(w, next)
  }

  predicate IsValidChain(w: World, chain: seq<Block>) {
    && chain != []
    && forall i :: 0 < i < |chain| ==> IsNewBlockValid(w, chain[i], chain[i - 1])
  }

  method IsBlockchainValid(w: World, chain: seq<Block>) returns (valid: bool)
    ensures valid <==> IsValidChain(w, chain)
  {
    if chain == [] {
      return false;
    }
    var previous, i := chain[0], 1;
    while i < |chain|
      invariant 1 <= i <= |chain| && previous == chain[i - 1]
      invariant forall k :: 0 < k < i ==> IsNewBlockValid(w, chain[k], chain[k - 1])
    {
      if !IsNewBlockValid(w, chain[i], previous) {
        return false;
      }
      previous, i := chain[i], i + 1;
    }
    valid := true;
  }

  lemma ValidPrefix(w: World, chain: seq<Block>, n: nat)
    requires IsValidChain(w, chain) && 0 < n <= |chain|
    ensures IsValidChain(w, chain[..n])
  {
  }

  // Cumulative difficulty

  function Work(chain: seq<Block>): nat {
    if chain == [] then 0 else Pow2(chain[0].difficulty) + Work(chain[1..])
  }

  lemma {:induction false} WorkAppend(a: seq<Block>, b: seq<Block>)
    ensures Work(a + b) == Work(a) + Work(b)
  {
    if a == [] {
      assert a + b == b;
    } else {
      assert (a + b)[1..] == a[1..] + b;
      WorkAppend(a[1..], b);
    }
  }

  lemma OneMoreBlock(chain: seq<Block>, b: Block)
    ensures Work(chain + [b]) > Work(chain)
  {
    WorkAppend(chain, [b]);
    Pow2Positive(b.difficulty);
    assert Work([b]) == Pow2(b.difficulty) + Work([b][1..]);
  }

  // accumulator + std::pow(2, difficulty), a double, stored back into an int
  function AddWork(w: World, accumulator: int, difficulty: u16): int {
    var sum := accumulator + Pow2(difficulty);
    if accumulator >= 0 && sum <= INT_MAX then sum else w.outOfRange(accumulator, difficulty)
  }

  function AccumulateWork(w: World, accumulator: int, difficulties: seq<u16>): int
    decreases difficulties
  {
    if difficulties == [] then accumulator
    else AccumulateWork(w, AddWork(w, accumulator, difficulties[0]), difficulties[1..])
  }

  function Difficulties(chain: seq<Block>): seq<u16> {
    seq(|chain|, i requires 0 <= i < |chain| => chain[i].difficulty)
  }

  function CumulativeDifficulty(w: World, chain: seq<Block>): u64 {
    AccumulateWork(w, 0, Difficulties(chain)) % TWO_64
  }

  method ComputeCumulativeDifficulty(w: World, chain: seq<Block>) returns (work: u64)
    ensures work == CumulativeDifficulty(w, chain)
  {
    var difficulties := new u16[|chain|];
    for i := 0 to |chain|
      invariant difficulties[..i] == Difficulties(chain)[..i]
    {
      difficulties[i] := chain[i].difficulty;
    }
    ghost var all := Difficulties(chain);
    assert difficulties[..] == all;
    var accumulator: int := 0;
    for i := 0 to difficulties.Length
      invariant difficulties[..] == all
      invariant AccumulateWork(w, accumulator, all[i..]) == AccumulateWork(w, 0, all)
    {
      accumulator := AddWork(w, accumulator, difficulties[i]);
      assert all[i..][1..] == all[i + 1..];
    }
    work := accumulator % TWO_64;
  }

  lemma {:induction false} AccumulateWorkExact(w: World, accumulator: nat, chain: seq<Block>)
    requires accumulator + Work(chain) <= INT_MAX
    ensures AccumulateWork(w, accumulator, Difficulties(chain)) == accumulator + Work(chain)
    decreases chain
  {
    if chain != [] {
      assert Difficulties(chain)[1..] == Difficulties(chain[1..]);
      AccumulateWorkExact(w, accumulator + Pow2(chain[0].difficulty), chain[1..]);
    }
  }

  /** As long as the total fits an int, the cumulative difficulty is the exact sum of 2^difficulty. */
  lemma CumulativeDifficultyExact(w: World, chain: seq<Block>)
    requires Work(chain) <= INT_MAX
    ensures CumulativeDifficulty(w, chain) == Work(chain)
  {
    AccumulateWorkExact(w, 0, chain);
  }

  lemma {:induction false} AccumulateWorkAppend(w: World, accumulator: int, a: seq<u16>, d: u16)
    ensures AccumulateWork(w, accumulator, a + [d]) == AddWork(w, AccumulateWork(w, accumulator, a), d)
    decreases a
  {
    if a == [] {
      assert (a + [d])[1..] == [];
    } else {
      assert (a + [d])[1..] == a[1..] + [d];
      AccumulateWorkAppend(w, AddWork(w, accumulator, a[0]), a[1..], d);
    }
  }

  /** The block with which the total leaves the range of an int makes of it whatever the conversion leaves. */
  lemma BeyondIntIsUndefined(w: World, chain: seq<Block>, b: Block)
    requires Work(chain) <= INT_MAX < Work(chain) + Pow2(b.difficulty)
    ensures CumulativeDifficulty(w, chain + [b]) == w.outOfRange(Work(chain), b.difficulty) % TWO_64
  {
    AccumulateWorkExact(w, 0, chain);
    AccumulateWorkAppend(w, 0, Difficulties(chain), b.difficulty);
    assert Difficulties(chain + [b]) == Difficulties(chain) + [b.difficulty];
  }

  // Proof of work

  const DIGITS: nat := 20

  // strtoul in base 16 of a single character: 0 when it is not a hexadecimal digit.
  function HexDigit(c: char): (d: nat)
    ensures d < 16
  {
    if '0' <= c <= '9' then (c - '0') as nat
    else if 'a' <= c <= 'f' then 10 + (c - 'a') as nat
    else if 'A' <= c <= 'F' then 10 + (c - 'A') as nat
    else 0
  }

  // Bit j of a hexadecimal digit, most significant first.
  predicate DigitBit(digit: nat, j: nat)
    requires digit < 16 && j < 4
  {
    var shifted := if j == 0 then digit / 8 else if j == 1 then digit / 4 else if j == 2 then digit / 2 else digit;
    shifted % 2 == 1
  }

  // Bit i of a text of hexadecimal digits, most significant first.
  predicate HexBit(text: string, i: nat)
    requires i < 4 * |text|
  {
    DigitBit(HexDigit(text[i / 4]), i % 4)
  }

  lemma HexBitAt(text: string, i: nat, j: nat)
    requires i < |text| && j < 4
    ensures HexBit(text, 4 * i + j) == DigitBit(HexDigit(text[i]), j)
  {
    assert (4 * i + j) / 4 == i && (4 * i + j) % 4 == j;
  }

  lemma HalvedDigitBits(digit: nat)
    requires digit < 16
    ensures DigitBit(digit, 3) == (digit % 2 == 1)
    ensures DigitBit(digit, 2) == (digit / 2 % 2 == 1)
    ensures DigitBit(digit, 1) == (digit / 2 / 2 % 2 == 1)
    ensures DigitBit(digit, 0) == (digit / 2 / 2 / 2 % 2 == 1)
  {
  }

  // The bits of the digit at position i, by repeated halving.
  lemma DigitBits(text: string, i: nat)
    requires i < |text|
    ensures var number := HexDigit(text[i]);
      && HexBit(text, 4 * i + 3) == (number % 2 == 1)
      && HexBit(text, 4 * i + 2) == (number / 2 % 2 == 1)
      && HexBit(text, 4 * i + 1) == (number / 2 / 2 % 2 == 1)
      && HexBit(text, 4 * i) == (number / 2 / 2 / 2 % 2 == 1)
  {
    HalvedDigitBits(HexDigit(text[i]));
    HexBitAt(text, i, 0);
    HexBitAt(text, i, 1);
    HexBitAt(text, i, 2);
    HexBitAt(text, i, 3);
  }

  method HexToBinary(n: nat, text: string) returns (binary: array<bool>)
    requires n <= |text|
    ensures fresh(binary) && binary.Length == 4 * n
    ensures forall i :: 0 <= i < 4 * n ==> binary[i] == HexBit(text, i)
  {
    binary := new bool[4 * n];
    for i := 0 to n
      invariant forall k :: 0 <= k < 4 * i ==> binary[k] == HexBit(text, k)
    {
      var number := HexDigit(text[i]);
      DigitBits(text, i);
      binary[4 * i + 3] := number % 2 == 1;
      number := number / 2;
      binary[4 * i + 2] := number % 2 == 1;
      number := number / 2;
      binary[4 * i + 1] := number % 2 == 1;
      number := number / 2;
      binary[4 * i] := number % 2 == 1;
    }
  }

  predicate HashMatches(hash: string, difficulty: u16)
    requires |hash| >= DIGITS && difficulty <= 4 * DIGITS
  {
    ZeroBits(hash, 0, difficulty)
  }

  // The array of bits has 80 elements and is not bounds-checked, hence the precondition.
  method HashMatchesDifficulty(hash: string, difficulty: u16) returns (matches: bool)
    requires |hash| >= DIGITS && difficulty <= 4 * DIGITS
    ensures matches == HashMatches(hash, difficulty)
  {
    var binary := HexToBinary(DIGITS, hash);
    for i := 0 to difficulty
      invariant forall k :: 0 <= k < i ==> !HexBit(hash, k)
    {
      if binary[i] {
        return false;
      }
    }
    matches := true;
  }

  function HexNumber(text: string): nat {
    if text == [] then 0
    else 16 * HexNumber(text[..|text| - 1]) + HexDigit(text[|text| - 1])
  }

  lemma LeadingBitsOfDigit(x: nat, k: nat)
    requires x < 16 && 1 <= k <= 4
    ensures (forall j :: 0 <= j < k ==> !DigitBit(x, j)) <==> x < Pow2(4 - k)
  {
    assert Pow2(0) == 1 && Pow2(1) == 2 && Pow2(2) == 4 && Pow2(3) == 8;
    assert DigitBit(x, 0) <==> x >= 8;
    assert x < 8 ==> (DigitBit(x, 1) <==> x >= 4);
    assert x < 4 ==> (DigitBit(x, 2) <==> x >= 2);
    assert x < 2 ==> (DigitBit(x, 3) <==> x >= 1);
  }

  predicate ZeroBits(text: string, from: nat, to: nat)
    requires to <= 4 * |text|
  {
    forall i :: from <= i < to ==> !HexBit(text, i)
  }

  lemma ZeroBitsOfFront(text: string, d: nat)
    requires text != [] && d <= 4 * (|text| - 1)
    ensures ZeroBits(text, 0, d) <==> ZeroBits(text[..|text| - 1], 0, d)
  {
    var front := text[..|text| - 1];
    forall i | 0 <= i < d
      ensures HexBit(text, i) == HexBit(front, i)
    {
      assert text[i / 4] == front[i / 4];
    }
  }

  lemma ZeroBitsOfLastDigit(text: string, k: nat)
    requires text != [] && 1 <= k <= 4
    ensures var n := |text| - 1;
      ZeroBits(text, 4 * n, 4 * n + k) <==> HexDigit(text[n]) < Pow2(4 - k)
  {
    var n := |text| - 1;
    var x := HexDigit(text[n]);
    LeadingBitsOfDigit(x, k);
    forall j | 0 <= j < k
      ensures HexBit(text, 4 * n + j) == DigitBit(x, j)
    {
      assert (4 * n + j) / 4 == n && (4 * n + j) % 4 == j;
    }
    if ZeroBits(text, 4 * n, 4 * n + k) {
      assert forall j :: 0 <= j < k ==> !DigitBit(x, j) by {
        forall j | 0 <= j < k
          ensures !DigitBit(x, j)
        {
          assert !HexBit(text, 4 * n + j);
        }
      }
    } else {
      var i :| 4 * n <= i < 4 * n + k && HexBit(text, i);
      assert DigitBit(x, i - 4 * n);
    }
  }

  lemma SixteenTimes(p: nat)
    ensures Pow2(p + 4) == 16 * Pow2(p)
  {
    assert Pow2(p + 4) == 2 * Pow2(p + 3) == 4 * Pow2(p + 2) == 8 * Pow2(p + 1);
  }

  lemma {:induction false} LeadingZeros(text: string, d: nat)
    requires d <= 4 * |text|
    ensures ZeroBits(text, 0, d) <==> HexNumber(text) < Pow2(4 * |text| - d)
  {
    if text != [] {
      var n := |text| - 1;
      var front := text[..n];
      if d <= 4 * n {
        ZeroBitsOfFront(text, d);
        LeadingZeros(front, d);
        SixteenTimes(4 * n - d);
      } else {
        ZeroBitsOfFront(text, 4 * n);
        LeadingZeros(front, 4 * n);
        ZeroBitsOfLastDigit(text, d - 4 * n);
        PowersOfTwoGrow(4 * |text| - d, 3);
        assert Pow2(0) == 1 && Pow2(3) == 8;
        assert ZeroBits(text, 0, d) <==> ZeroBits(text, 0, 4 * n) && ZeroBits(text, 4 * n, d);
      }
    }
  }

  lemma {:induction false} PowersOfTwoGrow(a: nat, b: nat)
    requires a <= b
    ensures Pow2(a) <= Pow2(b)
    decreases b - a
  {
    if a < b {
      PowersOfTwoGrow(a + 1, b);
    }
  }

  lemma HexBitOfPrefix(hash: string, i: nat)
    requires |hash| >= DIGITS && i < 4 * DIGITS
    ensures HexBit(hash, i) == HexBit(hash[..DIGITS], i)
  {
  }

  /** The test accepts exactly the hashes whose first 20 digits are, as a number, below 2^(80 - d). */
  lemma HashMatchesIsThreshold(hash: string, difficulty: u16)
    requires |hash| >= DIGITS && difficulty <= 4 * DIGITS
    ensures HashMatches(hash, difficulty) <==> HexNumber(hash[..DIGITS]) < Pow2(4 * DIGITS - difficulty)
  {
    forall i | 0 <= i < difficulty
      ensures HexBit(hash, i) == HexBit(hash[..DIGITS], i)
    {
      HexBitOfPrefix(hash, i);
    }
    LeadingZeros(hash[..DIGITS], difficulty);
  }

  /** A hash good for one difficulty is good for every lower one. */
  lemma EasierStillMatches(hash: string, easier: u16, harder: u16)
    requires |hash| >= DIGITS && easier <= harder <= 4 * DIGITS && HashMatches(hash, harder)
    ensures HashMatches(hash, easier) && HexNumber(hash[..DIGITS]) < Pow2(4 * DIGITS - easier)
  {
    HashMatchesIsThreshold(hash, harder);
    PowersOfTwoGrow(4 * DIGITS - harder, 4 * DIGITS - easier);
  }

  // Hexadecimal text

  // What a digest prints for four bits.
  function HexChar(d: nat): char
    requires d < 16
  {
    "0123456789abcdef"[d]
  }

  // The last digits of a number, leading zeros included, the way digests are printed.
  function HexText(n: nat, width: nat): (text: string)
    ensures |text| == width
  {
    if width == 0 then "" else HexText(n / 16, width - 1) + [HexChar(n % 16)]
  }

  function UpperCase(text: string): (r: string)
    ensures |r| == |text|
  {
    seq(|text|, i requires 0 <= i < |text| => if 'a' <= text[i] <= 'f' then "ABCDEF"[(text[i] - 'a') as int] else text[i])
  }

  lemma HexCharReadsBack(d: nat)
    requires d < 16
    ensures HexDigit(HexChar(d)) == d
  {
  }

  /** The number read from a printed one is that number, as long as it has enough digits. */
  lemma {:induction false} HexRoundTrip(n: nat, width: nat)
    requires n < Pow2(4 * width)
    ensures HexNumber(HexText(n, width)) == n
  {
    if width > 0 {
      SixteenTimes(4 * (width - 1));
      HexRoundTrip(n / 16, width - 1);
      HexCharReadsBack(n % 16);
      assert HexText(n, width)[..width - 1] == HexText(n / 16, width - 1);
    }
  }

  /** Upper-case digits read like lower-case ones. */
  lemma {:induction false} UpperCaseReadsAlike(text: string)
    ensures HexNumber(UpperCase(text)) == HexNumber(text)
  {
    if text != [] {
      var n := |text| - 1;
      UpperCaseReadsAlike(text[..n]);
      assert UpperCase(text)[..n] == UpperCase(text[..n]);
    }
  }

  /** A digest whose first 20 digits print a number, in either case, meets a difficulty exactly when the
      number is below 2^(80 - d). */
  lemma PrintedDigestMatches(n: nat, rest: string, difficulty: u16)
    requires n < Pow2(4 * DIGITS) && difficulty <= 4 * DIGITS
    ensures HashMatches(HexText(n, DIGITS) + rest, difficulty) <==> n < Pow2(4 * DIGITS - difficulty)
    ensures HashMatches(UpperCase(HexText(n, DIGITS)) + rest, difficulty) <==> n < Pow2(4 * DIGITS - difficulty)
  {
    var text := HexText(n, DIGITS);
    HexRoundTrip(n, DIGITS);
    UpperCaseReadsAlike(text);
    HashMatchesIsThreshold(text + rest, difficulty);
    HashMatchesIsThreshold(UpperCase(text) + rest, difficulty);
    assert (text + rest)[..DIGITS] == text && (UpperCase(text) + rest)[..DIGITS] == UpperCase(text);
  }

  predicate IsHexChar(c: char) {
    '0' <= c <= '9' || 'a' <= c <= 'f' || 'A' <= c <= 'F'
  }

  lemma OnlyZeroHasNoBits(text: string, i: nat)
    requires i < |text|
    ensures ZeroBits(text, 4 * i, 4 * i + 4) <==> text[i] == '0' || !IsHexChar(text[i])
  {
    HexBitAt(text, i, 0);
    HexBitAt(text, i, 1);
    HexBitAt(text, i, 2);
    HexBitAt(text, i, 3);
    LeadingBitsOfDigit(HexDigit(text[i]), 4);
    assert Pow2(0) == 1;
    if HexDigit(text[i]) == 0 {
      forall k | 4 * i <= k < 4 * i + 4
        ensures !HexBit(text, k)
      {
        HexBitAt(text, i, k - 4 * i);
      }
    }
  }

  /** At a multiple of four, difficulty counts the zeros a digest starts with; any other character than a
      digit counts as a zero. */
  lemma {:induction false} LeadingZeroDigits(hash: string, k: nat)
    requires |hash| >= 20 && k <= 20
    ensures HashMatches(hash, 4 * k) <==> forall i :: 0 <= i < k ==> hash[i] == '0' || !IsHexChar(hash[i])
  {
    if k > 0 {
      LeadingZeroDigits(hash, k - 1);
      OnlyZeroHasNoBits(hash, k - 1);
      assert ZeroBits(hash, 0, 4 * k) <==> ZeroBits(hash, 0, 4 * (k - 1)) && ZeroBits(hash, 4 * (k - 1), 4 * k);
    }
  }

  // Validity, field by field

  /** Every block of a valid chain after the first has its own hash and names that of the block before. */
  lemma ValidBlocksHashed(w: World, chain: seq<Block>, i: nat)
    requires IsValidChain(w, chain) && 0 < i < |chain|
    ensures SelfConsistent(w, chain[i]) && chain[i].previousHash == BlockHash(w, chain[i - 1])
  {
    assert IsNewBlockValid(w, chain[i], chain[i - 1]);
  }
}
