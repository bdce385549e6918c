/** The miner: its window of requested blocks, the nonce search, and how difficulty moves. */
module Mining {
  import opened Basics
  import opened Environment
  import opened Entities
  import opened Transactions
  import opened Blocks
  import opened Encodings
  import opened Wire
  import opened Ledger
  import opened Nodes

  const BLOCK_GENERATION_INTERVAL_IN_SECONDS: nat := 10
  const DIFFICULTY_ADJUSTMENT_INTERVAL_IN_BLOCKS: nat := 10

  // The most recent requests, at most ten.
  function Window(requests: seq<Block>): seq<Block> {
    if |requests| <= DIFFICULTY_ADJUSTMENT_INTERVAL_IN_BLOCKS then requests
    else requests[|requests| - DIFFICULTY_ADJUSTMENT_INTERVAL_IN_BLOCKS..]
  }

  // Difficulty is a uint16_t: it wraps at both ends.
  function AdjustedDifficulty(window: seq<Block>): u16
    requires window != []
  {
    var latest := Last(window);
    var expected := DIFFICULTY_ADJUSTMENT_INTERVAL_IN_BLOCKS * BLOCK_GENERATION_INTERVAL_IN_SECONDS;
    var actual := latest.timestamp - window[0].timestamp;
    if actual < expected / 2 then (latest.difficulty + 1) % TWO_16
    else if actual > expected * 2 then (latest.difficulty - 1) % TWO_16
    else latest.difficulty
  }

  function NextDifficulty(window: seq<Block>): u16
    requires window != []
  {
    if Last(window).index % DIFFICULTY_ADJUSTMENT_INTERVAL_IN_BLOCKS == 0 then AdjustedDifficulty(window)
    else Last(window).difficulty
  }

  // The search

  // The digest of the block with this nonce meets its difficulty.
  ghost predicate Solves(w: World, index: u64, previousHash: string, timestamp: int, data: string,
                         difficulty: u16, nonce: u64)
    requires HexDigests(w) && difficulty <= 4 * DIGITS
  {
    HashMatches(w.hash(BlockPreimage(w, index, previousHash, timestamp, data, difficulty, nonce)), difficulty)
  }

  predicate DrawnAt(nonces: seq<u64>, nonce: u64, i: int) {
    0 <= i < |nonces| && nonces[i] == nonce
  }

  /** The nonces are those the generator yields before the search is interrupted. */
  method FindNextBlock(w: World, index: u64, previousHash: string, timestamp: int, data: string,
                       difficulty: u16, nonces: seq<u64>) returns (r: Option<Block>)
    requires HexDigests(w) && difficulty <= 4 * DIGITS
    ensures r.None? <==>
      forall i :: 0 <= i < |nonces| ==> !Solves(w, index, previousHash, timestamp, data, difficulty, nonces[i])
    ensures r.Some? ==>
      && r.value == MakeBlock(w, index, previousHash, timestamp, data, difficulty, r.value.nonce)
      && Solves(w, index, previousHash, timestamp, data, difficulty, r.value.nonce)
      && exists i :: DrawnAt(nonces, r.value.nonce, i)
           && forall j :: 0 <= j < i ==> !Solves(w, index, previousHash, timestamp, data, difficulty, nonces[j])
  {
    for i := 0 to |nonces|
      invariant forall j :: 0 <= j < i ==> !Solves(w, index, previousHash, timestamp, data, difficulty, nonces[j])
    {
      var nonce := nonces[i];
      var hash := w.hash(BlockPreimage(w, index, previousHash, timestamp, data, difficulty, nonce));
      var matches := HashMatchesDifficulty(hash, difficulty);
      if matches {
        assert Solves(w, index, previousHash, timestamp, data, difficulty, nonces[i]);
        assert DrawnAt(nonces, nonce, i);
        return Some(MakeBlock(w, index, previousHash, timestamp, data, difficulty, nonce));
      }
    }
    r := None;
  }

  // A block mined on a tip: a valid successor with a coinbase of its own and the given transactions.
  ghost predicate MinedOn(w: World, publicKey: string, tip: Block, transactions: seq<Transaction>, b: Block)
    requires HexDigests(w)
  {
    && IsNewBlockValid(w, b, tip)
    && b.difficulty <= 4 * DIGITS && HashMatches(b.hash, b.difficulty)
    && b.data == SerializeTransactions(w, [CoinbaseTransaction(w, b.index, publicKey)] + transactions)
  }

  // The block the miner would return for a nonce.
  function Candidate(w: World, publicKey: string, tip: Block, transactions: seq<Transaction>, now: int,
                     difficulty: u16, nonce: u64): Block {
    var index := Successor(tip.index);
    var data := SerializeTransactions(w, [CoinbaseTransaction(w, index, publicKey)] + transactions);
    MakeBlock(w, index, tip.hash, now, data, difficulty, nonce)
  }

  ghost predicate Meets(w: World, publicKey: string, tip: Block, transactions: seq<Transaction>, now: int,
                        difficulty: u16, nonce: u64)
    requires HexDigests(w) && difficulty <= 4 * DIGITS
  {
    HashMatches(Candidate(w, publicKey, tip, transactions, now, difficulty, nonce).hash, difficulty)
  }

  // The nonce at position i is the first with which the block meets its difficulty.
  ghost predicate MeetsFirst(w: World, publicKey: string, tip: Block, transactions: seq<Transaction>, now: int,
                             difficulty: u16, nonces: seq<u64>, i: int)
    requires HexDigests(w) && difficulty <= 4 * DIGITS
  {
    && 0 <= i < |nonces| && Meets(w, publicKey, tip, transactions, now, difficulty, nonces[i])
    && forall j :: 0 <= j < i ==> !Meets(w, publicKey, tip, transactions, now, difficulty, nonces[j])
  }

  // The candidate of the first such nonce, and nothing exactly when there is none.
  ghost predicate FirstSolution(w: World, publicKey: string, tip: Block, transactions: seq<Transaction>, now: int,
                                difficulty: u16, nonces: seq<u64>, r: Option<Block>)
    requires HexDigests(w) && difficulty <= 4 * DIGITS
  {
    match r
    case None =>
      forall i :: 0 <= i < |nonces| ==> !Meets(w, publicKey, tip, transactions, now, difficulty, nonces[i])
    case Some(b) =>
      exists i :: MeetsFirst(w, publicKey, tip, transactions, now, difficulty, nonces, i)
        && b == Candidate(w, publicKey, tip, transactions, now, difficulty, nonces[i])
  }

  /** There is one result for every list of nonces: the search leaves no choice. */
  lemma FirstSolutionUnique(w: World, publicKey: string, tip: Block, transactions: seq<Transaction>, now: int,
                            difficulty: u16, nonces: seq<u64>, r: Option<Block>, s: Option<Block>)
    requires HexDigests(w) && difficulty <= 4 * DIGITS
    requires FirstSolution(w, publicKey, tip, transactions, now, difficulty, nonces, r)
    requires FirstSolution(w, publicKey, tip, transactions, now, difficulty, nonces, s)
    ensures r == s
  {
    if r.Some? && s.Some? {
      var i :| MeetsFirst(w, publicKey, tip, transactions, now, difficulty, nonces, i)
        && r.value == Candidate(w, publicKey, tip, transactions, now, difficulty, nonces[i]);
      var j :| MeetsFirst(w, publicKey, tip, transactions, now, difficulty, nonces, j)
        && s.value == Candidate(w, publicKey, tip, transactions, now, difficulty, nonces[j]);
      assert i == j;
    }
  }

  /** Of difficulty 0 the first nonce drawn gives a block. */
  lemma NoDifficultyMinesAtOnce(w: World, publicKey: string, tip: Block, transactions: seq<Transaction>, now: int,
                                nonces: seq<u64>, r: Option<Block>)
    requires HexDigests(w) && nonces != [] && FirstSolution(w, publicKey, tip, transactions, now, 0, nonces, r)
    ensures r == Some(Candidate(w, publicKey, tip, transactions, now, 0, nonces[0]))
  {
    assert Meets(w, publicKey, tip, transactions, now, 0, nonces[0]);
    assert MeetsFirst(w, publicKey, tip, transactions, now, 0, nonces, 0);
    FirstSolutionUnique(w, publicKey, tip, transactions, now, 0, nonces, r,
      Some(Candidate(w, publicKey, tip, transactions, now, 0, nonces[0])));
  }

  // A solution is mined on its tip.
  lemma SolutionIsMined(w: World, publicKey: string, tip: Block, transactions: seq<Transaction>, now: int,
                        difficulty: u16, nonces: seq<u64>, b: Block)
    requires HexDigests(w) && difficulty <= 4 * DIGITS && SelfConsistent(w, tip)
    requires FirstSolution(w, publicKey, tip, transactions, now, difficulty, nonces, Some(b))
    ensures MinedOn(w, publicKey, tip, transactions, b)
    ensures b.difficulty == difficulty && b.nonce in nonces && b.timestamp == now
  {
    var i :| MeetsFirst(w, publicKey, tip, transactions, now, difficulty, nonces, i)
      && b == Candidate(w, publicKey, tip, transactions, now, difficulty, nonces[i]);
  }

  // What the search finds is the first solution.
  lemma FoundIsFirst(w: World, publicKey: string, tip: Block, transactions: seq<Transaction>, now: int,
                     difficulty: u16, nonces: seq<u64>, r: Option<Block>)
    requires HexDigests(w) && difficulty <= 4 * DIGITS && SelfConsistent(w, tip)
    requires var index := Successor(tip.index);
             var data := SerializeTransactions(w, [CoinbaseTransaction(w, index, publicKey)] + transactions);
      && (r.None? <==> forall i :: 0 <= i < |nonces| ==> !Solves(w, index, tip.hash, now, data, difficulty, nonces[i]))
      && (r.Some? ==>
            && r.value == MakeBlock(w, index, tip.hash, now, data, difficulty, r.value.nonce)
            && Solves(w, index, tip.hash, now, data, difficulty, r.value.nonce)
            && exists i :: DrawnAt(nonces, r.value.nonce, i)
                 && forall j :: 0 <= j < i ==> !Solves(w, index, tip.hash, now, data, difficulty, nonces[j]))
    ensures FirstSolution(w, publicKey, tip, transactions, now, difficulty, nonces, r)
    ensures r.Some? ==>
      && MinedOn(w, publicKey, tip, transactions, r.value)
      && r.value.difficulty == difficulty && r.value.nonce in nonces && r.value.timestamp == now
  {
    var index := Successor(tip.index);
    var data := SerializeTransactions(w, [CoinbaseTransaction(w, index, publicKey)] + transactions);
    forall i | 0 <= i < |nonces|
      ensures Meets(w, publicKey, tip, transactions, now, difficulty, nonces[i])
          <==> Solves(w, index, tip.hash, now, data, difficulty, nonces[i])
    {
    }
    if r.Some? {
      var i :| DrawnAt(nonces, r.value.nonce, i)
        && forall j :: 0 <= j < i ==> !Solves(w, index, tip.hash, now, data, difficulty, nonces[j]);
      assert MeetsFirst(w, publicKey, tip, transactions, now, difficulty, nonces, i);
      SolutionIsMined(w, publicKey, tip, transactions, now, difficulty, nonces, r.value);
    }
  }

  class Miner {
    const world: World
    const publicKey: string
    var latestBlocks: seq<Block>
    var nextBlock: Option<Block>
    var pendingTransactions: seq<Transaction>
    ghost var requests: seq<Block>

    ghost predicate Valid()
      reads this
    {
      latestBlocks == Window(requests) && HexDigests(world)
    }

    constructor (w: World, publicKey: string)
      requires HexDigests(w)
      ensures Valid() && requests == [] && nextBlock == None && world == w && this.publicKey == publicKey
    {
      world := w;
      this.publicKey := publicKey;
      latestBlocks, nextBlock, pendingTransactions, requests := [], None, [], [];
    }

    method RequestMineNextBlock(latest: Block, pending: seq<Transaction>)
      requires Valid()
      modifies this`latestBlocks, this`pendingTransactions, this`requests
      ensures Valid() && requests == old(requests) + [latest] && pendingTransactions == pending
      ensures |latestBlocks| == Min(10, |requests|)
      ensures forall i :: 0 <= i < |latestBlocks| ==> FromTip(latestBlocks, i) == FromTip(requests, i)
      ensures latestBlocks != [] && Last(latestBlocks) == latest
    {
      latestBlocks := latestBlocks + [latest];
      if |latestBlocks| > DIFFICULTY_ADJUSTMENT_INTERVAL_IN_BLOCKS {
        latestBlocks := latestBlocks[1..];
      }
      pendingTransactions := pending;
      requests := requests + [latest];
    }

    // Mining beyond 80 bits of difficulty reads past the end of the bits.
    method MineNextBlock(latest: Block, now: int, nonces: seq<u64>) returns (r: Option<Block>)
      requires Valid() && SelfConsistent(world, latest)
      requires latestBlocks != [] && Last(latestBlocks) == latest && NextDifficulty(latestBlocks) <= 4 * DIGITS
      modifies this`pendingTransactions
      ensures Valid() && pendingTransactions == []
      ensures FirstSolution(world, publicKey, latest, old(pendingTransactions), now, NextDifficulty(latestBlocks), nonces, r)
      ensures r.Some? ==>
        && MinedOn(world, publicKey, latest, old(pendingTransactions), r.value)
        && r.value.difficulty == NextDifficulty(latestBlocks) && r.value.nonce in nonces && r.value.timestamp == now
    {
      var index := Successor(latest.index);
      var coinbase := CoinbaseTransaction(world, index, publicKey);
      var blockTransactions := [coinbase] + pendingTransactions;
      pendingTransactions := [];
      var data := SerializeTransactions(world, blockTransactions);
      var difficulty := NextDifficulty(latestBlocks);
      r := FindNextBlock(world, index, latest.hash, now, data, difficulty, nonces);
      FoundIsFirst(world, publicKey, latest, old(pendingTransactions), now, difficulty, nonces, r);
    }

    // One round of the mining loop with a single outstanding request.
    method MineRequested(now: int, nonces: seq<u64>)
      requires Valid() && latestBlocks != [] && SelfConsistent(world, Last(latestBlocks))
      requires NextDifficulty(latestBlocks) <= 4 * DIGITS
      modifies this`pendingTransactions, this`nextBlock
      ensures Valid() && pendingTransactions == []
      ensures var tip, pool, difficulty := Last(latestBlocks), old(pendingTransactions), NextDifficulty(latestBlocks);
        if exists i :: MeetsFirst(world, publicKey, tip, pool, now, difficulty, nonces, i) then
          && FirstSolution(world, publicKey, tip, pool, now, difficulty, nonces, nextBlock)
          && nextBlock.Some? && MinedOn(world, publicKey, tip, pool, nextBlock.value)
          && nextBlock.value.difficulty == difficulty
        else
          && FirstSolution(world, publicKey, tip, pool, now, difficulty, nonces, None)
          && nextBlock == old(nextBlock)
    {
      var mined := MineNextBlock(latestBlocks[|latestBlocks| - 1], now, nonces);
      if mined.Some? {
        nextBlock := mined;
      }
    }

    method GetNextBlock() returns (r: Option<Block>)
      modifies this`nextBlock
      ensures r == old(nextBlock) && nextBlock == None
    {
      r := nextBlock;
      nextBlock := None;
    }
  }

  /** A mined block is added while its tip is still the tip and refused once the chain has grown or shrunk,
      and its data reads back as its coinbase, valid for it, and the requested transactions. */
  lemma MinedBlockIsAdded(w: World, s: LedgerState, publicKey: string, tip: Block, transactions: seq<Transaction>, b: Block)
    requires HexDigests(w) && JsonCodec(w) && Consistent(w, s) && SelfConsistent(w, tip)
    requires MinedOn(w, publicKey, tip, transactions, b)
    requires b.index < TWO_32 && forall t :: t in transactions ==> SmallIndices(t)
    ensures BlockTransactions(w, b) == [CoinbaseTransaction(w, b.index, publicKey)] + transactions
    ensures IsCoinbaseTransactionValid(w, b.index, BlockTransactions(w, b)[0])
    ensures tip == Last(s.blockchain) ==> TryAdding(w, s, b).state.blockchain == s.blockchain + [b]
                                          && TryAdding(w, s, b).completed
    ensures Last(s.blockchain).index != tip.index ==> TryAdding(w, s, b) == Outcome(s, true)
  {
    var all := [CoinbaseTransaction(w, b.index, publicKey)] + transactions;
    TransactionsRoundTrip(all);
    assert BlockTransactions(w, b) == all;
    AddBlockEffect(w, s, b);
  }

  /** A mined block whose tip is no longer the tip is refused, after a reorganisation to a chain of equal
      length too, or the two tips are a hash collision. */
  lemma StaleMinedBlockIsRefused(w: World, s: LedgerState, publicKey: string, tip: Block,
                                 transactions: seq<Transaction>, b: Block)
    requires HexDigests(w) && TimeCodec(w) && Consistent(w, s) && CommaFree(s.blockchain[0].previousHash)
    requires SelfConsistent(w, tip) && CommaFree(tip.previousHash) && tip != Last(s.blockchain)
    requires MinedOn(w, publicKey, tip, transactions, b)
    ensures TryAdding(w, s, b) == Outcome(s, true) || Collision(w, Preimage(w, tip), Preimage(w, Last(s.blockchain)))
  {
    if tip.hash == Last(s.blockchain).hash {
      PreviousHashesCommaFree(w, s.blockchain, |s.blockchain| - 1);
      OneHashOneBlock(w, tip, Last(s.blockchain));
    }
  }

  // Runs of successive mined blocks

  // Block i was mined on the block before it, which the miner had just been asked to extend.
  ghost predicate MinedNext(earlier: seq<Block>, blocks: seq<Block>, i: int)
    requires 0 < i < |blocks|
  {
    && blocks[i].index == Successor(blocks[i - 1].index)
    && Window(earlier + blocks[..i]) != []
    && blocks[i].difficulty == NextDifficulty(Window(earlier + blocks[..i]))
  }

  ghost predicate MinedInTurn(earlier: seq<Block>, blocks: seq<Block>) {
    forall i :: 0 < i < |blocks| ==> MinedNext(earlier, blocks, i)
  }

  // Multiples of ten below n.
  function Tens(n: nat): int {
    (n + 9) / 10
  }

  function Distance(a: int, b: int): int {
    if a <= b then b - a else a - b
  }

  lemma DifficultyStep(earlier: seq<Block>, blocks: seq<Block>, i: nat)
    requires MinedInTurn(earlier, blocks) && 0 < i < |blocks|
    requires blocks[i - 1].difficulty <= 4 * DIGITS && blocks[i].difficulty <= 4 * DIGITS
    ensures Distance(blocks[i].difficulty, blocks[i - 1].difficulty)
         <= Tens(blocks[i - 1].index + 1) - Tens(blocks[i - 1].index)
  {
    var requests := earlier + blocks[..i];
    assert MinedNext(earlier, blocks, i);
    assert Last(requests) == blocks[i - 1] && Last(Window(requests)) == blocks[i - 1];
  }

  lemma {:induction false} SuccessiveIndices(earlier: seq<Block>, blocks: seq<Block>, i: nat)
    requires MinedInTurn(earlier, blocks) && i < |blocks| && blocks[0].index + i < TWO_64
    ensures blocks[i].index == blocks[0].index + i
  {
    if i > 0 {
      SuccessiveIndices(earlier, blocks, i - 1);
      assert MinedNext(earlier, blocks, i);
    }
  }

  // The search can test every difficulty.
  ghost predicate Testable(blocks: seq<Block>) {
    forall i :: 0 <= i < |blocks| ==> blocks[i].difficulty <= 4 * DIGITS
  }

  lemma {:induction false} DriftByTens(earlier: seq<Block>, blocks: seq<Block>, m: nat, n: nat)
    requires MinedInTurn(earlier, blocks) && m <= n < |blocks| && blocks[0].index + |blocks| <= TWO_64
    requires Testable(blocks)
    ensures Distance(blocks[n].difficulty, blocks[m].difficulty)
         <= Tens(blocks[0].index + n) - Tens(blocks[0].index + m)
    decreases n - m
  {
    if m < n {
      DriftByTens(earlier, blocks, m, n - 1);
      SuccessiveIndices(earlier, blocks, n - 1);
      DifficultyStep(earlier, blocks, n);
    }
  }

  // Leaving the difficulties the search can test

  // A step up from 80 bits, or down from 0, where the 16 bits wrap.
  predicate LeavesRange(window: seq<Block>)
    requires window != []
  {
    var latest, elapsed := Last(window), Last(window).timestamp - window[0].timestamp;
    && latest.index % DIFFICULTY_ADJUSTMENT_INTERVAL_IN_BLOCKS == 0
    && ((latest.difficulty == 0 && elapsed > 200) || (latest.difficulty == 80 && elapsed < 50))
  }

  /** From a difficulty the search can test the next one is too, unless the window is adjusted down from 0,
      which gives 65535, or up from 80, which gives 81. */
  lemma RangeLeftExactly(window: seq<Block>)
    requires window != [] && Last(window).difficulty <= 80
    ensures NextDifficulty(window) > 80 <==> LeavesRange(window)
    ensures LeavesRange(window) ==> NextDifficulty(window) == if Last(window).difficulty == 0 then 65535 else 81
  {
  }

  lemma WindowEndsWith(earlier: seq<Block>, blocks: seq<Block>, i: nat)
    requires 0 < i <= |blocks|
    ensures Window(earlier + blocks[..i]) != [] && Last(Window(earlier + blocks[..i])) == blocks[i - 1]
  {
    assert Last(earlier + blocks[..i]) == blocks[i - 1];
  }

  // No step of the run leaves the range.
  ghost predicate StaysInRange(earlier: seq<Block>, blocks: seq<Block>) {
    forall i :: 0 < i < |blocks| ==>
      Window(earlier + blocks[..i]) != [] && !LeavesRange(Window(earlier + blocks[..i]))
  }

  lemma {:induction false} StaysTestable(earlier: seq<Block>, blocks: seq<Block>, n: nat)
    requires MinedInTurn(earlier, blocks) && StaysInRange(earlier, blocks)
    requires n < |blocks| && blocks[0].difficulty <= 4 * DIGITS
    ensures blocks[n].difficulty <= 4 * DIGITS
  {
    if n > 0 {
      StaysTestable(earlier, blocks, n - 1);
      assert MinedNext(earlier, blocks, n);
      WindowEndsWith(earlier, blocks, n);
      RangeLeftExactly(Window(earlier + blocks[..n]));
    }
  }

  /** A run of successive mined blocks keeps to difficulties the search can test exactly when it starts with
      one and none of its windows is adjusted out of their range. */
  lemma RunTestableExactly(earlier: seq<Block>, blocks: seq<Block>)
    requires MinedInTurn(earlier, blocks) && blocks != []
    ensures Testable(blocks) <==> blocks[0].difficulty <= 4 * DIGITS && StaysInRange(earlier, blocks)
  {
    if blocks[0].difficulty <= 4 * DIGITS && StaysInRange(earlier, blocks) {
      forall i | 0 <= i < |blocks|
        ensures blocks[i].difficulty <= 4 * DIGITS
      {
        StaysTestable(earlier, blocks, i);
      }
    }
    if Testable(blocks) {
      forall i | 0 < i < |blocks|
        ensures Window(earlier + blocks[..i]) != [] && !LeavesRange(Window(earlier + blocks[..i]))
      {
        assert MinedNext(earlier, blocks, i);
        WindowEndsWith(earlier, blocks, i);
        RangeLeftExactly(Window(earlier + blocks[..i]));
      }
    }
  }

  // Which way difficulty moves

  // An adjusted window that took less than half the time expected.
  predicate Fast(window: seq<Block>)
    requires window != []
  {
    Last(window).index % 10 == 0 && Last(window).timestamp - window[0].timestamp < 50
  }

  // An adjusted window that took more than twice the time expected.
  predicate Slow(window: seq<Block>)
    requires window != []
  {
    Last(window).index % 10 == 0 && Last(window).timestamp - window[0].timestamp > 200
  }

  /** Inside the testable range difficulty rises by one exactly after a fast window, falls by one exactly after
      a slow one, and stays otherwise. */
  lemma DirectionExactly(window: seq<Block>)
    requires window != [] && Last(window).difficulty <= 4 * DIGITS && !LeavesRange(window)
    ensures NextDifficulty(window) > Last(window).difficulty <==> Fast(window)
    ensures NextDifficulty(window) < Last(window).difficulty <==> Slow(window)
    ensures Distance(NextDifficulty(window), Last(window).difficulty) <= 1
  {
  }

  // The window from which the difficulty of block n was computed.
  ghost function WindowBefore(earlier: seq<Block>, blocks: seq<Block>, n: nat): (window: seq<Block>)
    requires 0 < n < |blocks|
    ensures window != [] && Last(window) == blocks[n - 1]
  {
    WindowEndsWith(earlier, blocks, n);
    Window(earlier + blocks[..n])
  }

  // How many of the blocks after number m, up to number n, were made after a fast window.
  ghost function FastBetween(earlier: seq<Block>, blocks: seq<Block>, m: nat, n: nat): nat
    requires m <= n < |blocks|
    decreases n
  {
    if m == n then 0
    else FastBetween(earlier, blocks, m, n - 1) + if Fast(WindowBefore(earlier, blocks, n)) then 1 else 0
  }

  ghost function SlowBetween(earlier: seq<Block>, blocks: seq<Block>, m: nat, n: nat): nat
    requires m <= n < |blocks|
    decreases n
  {
    if m == n then 0
    else SlowBetween(earlier, blocks, m, n - 1) + if Slow(WindowBefore(earlier, blocks, n)) then 1 else 0
  }

  lemma MoveExactly(earlier: seq<Block>, blocks: seq<Block>, n: nat)
    requires MinedInTurn(earlier, blocks) && StaysInRange(earlier, blocks) && 0 < n < |blocks|
    requires blocks[n - 1].difficulty <= 4 * DIGITS
    ensures var window := WindowBefore(earlier, blocks, n);
      blocks[n].difficulty - blocks[n - 1].difficulty == (if Fast(window) then 1 else 0) - (if Slow(window) then 1 else 0)
  {
    assert MinedNext(earlier, blocks, n);
    DirectionExactly(WindowBefore(earlier, blocks, n));
  }

  // One more block changes its difficulty by as much as it changes the counts.
  lemma WindowCounted(earlier: seq<Block>, blocks: seq<Block>, m: nat, n: nat)
    requires MinedInTurn(earlier, blocks) && StaysInRange(earlier, blocks) && m < n < |blocks|
    requires blocks[n - 1].difficulty <= 4 * DIGITS
    ensures blocks[n].difficulty - (FastBetween(earlier, blocks, m, n) - SlowBetween(earlier, blocks, m, n))
         == blocks[n - 1].difficulty - (FastBetween(earlier, blocks, m, n - 1) - SlowBetween(earlier, blocks, m, n - 1))
  {
    MoveExactly(earlier, blocks, n);
  }

  /** In a run that stays in range difficulty counts the fast windows, less the slow ones. */
  lemma {:induction false} DifficultyCountsWindows(earlier: seq<Block>, blocks: seq<Block>, m: nat, n: nat)
    requires MinedInTurn(earlier, blocks) && m <= n < |blocks|
    requires blocks[0].difficulty <= 4 * DIGITS && StaysInRange(earlier, blocks)
    ensures blocks[n].difficulty - blocks[m].difficulty
         == FastBetween(earlier, blocks, m, n) - SlowBetween(earlier, blocks, m, n)
    decreases n
  {
    if m < n {
      DifficultyCountsWindows(earlier, blocks, m, n - 1);
      StaysTestable(earlier, blocks, n - 1);
      WindowCounted(earlier, blocks, m, n);
    }
  }

  /** In such a run difficulty moves by at most one for every ten blocks begun. */
  lemma DifficultyDrift(earlier: seq<Block>, blocks: seq<Block>, m: nat, n: nat)
    requires MinedInTurn(earlier, blocks) && m <= n < |blocks| && blocks[0].index + |blocks| <= TWO_64
    requires blocks[0].difficulty <= 4 * DIGITS && StaysInRange(earlier, blocks)
    ensures Distance(blocks[n].difficulty, blocks[m].difficulty) <= Tens(n - m)
  {
    RunTestableExactly(earlier, blocks);
    DriftByTens(earlier, blocks, m, n);
  }
}
