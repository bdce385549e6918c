/** Blocks mined from the pool, and when they conserve value. */
module Pool {
  import opened Basics
  import opened Environment
  import opened Entities
  import opened Transactions
  import opened Blocks
  import opened Encodings
  import opened Wire
  import opened Ledger
  import opened Value
  import opened Nodes
  import opened Mining

  // Submissions one after the other, with no block between them.
  function SubmitAll(w: World, s: LedgerState, transactions: seq<Transaction>): LedgerState
    decreases |transactions|
  {
    if transactions == [] then s else SubmitAll(w, Submit(w, s, transactions[0]), transactions[1..])
  }

  // Every transaction of the pool is valid on the list, whatever the others spend.
  ghost predicate ValidPool(w: World, s: LedgerState) {
    forall t :: t in s.pendingTransactions ==> IsTransactionValid(w, t, s.unspentOutputs)
  }

  /** Submissions keep a pool valid transaction by transaction, and leave the rest of the ledger alone. */
  lemma {:induction false} SubmissionsKeepPoolValid(w: World, s: LedgerState, transactions: seq<Transaction>)
    requires ValidPool(w, s)
    ensures var r := SubmitAll(w, s, transactions);
      && ValidPool(w, r) && r.blockchain == s.blockchain && r.unspentOutputs == s.unspentOutputs
    decreases |transactions|
  {
    if transactions != [] {
      SubmissionsKeepPoolValid(w, Submit(w, s, transactions[0]), transactions[1..]);
    }
  }

  // A block mined on the tip of the ledger with its whole pool.
  ghost predicate MinedFromPool(w: World, s: LedgerState, publicKey: string, b: Block) {
    && HexDigests(w) && JsonCodec(w) && Consistent(w, s) && s.blockchain[0].index + |s.blockchain| < TWO_32
    && MinedOn(w, publicKey, Last(s.blockchain), s.pendingTransactions, b)
    && forall t :: t in s.pendingTransactions ==> SmallIndices(t)
  }

  lemma PoolBlockAdded(w: World, s: LedgerState, publicKey: string, b: Block)
    requires MinedFromPool(w, s, publicKey, b)
    ensures BlockTransactions(w, b) == [CoinbaseTransaction(w, b.index, publicKey)] + s.pendingTransactions
    ensures BlockTransactions(w, b)[1..] == s.pendingTransactions
    ensures forall e :: e in s.unspentOutputs ==> e.transactionIndex < b.index
    ensures TryAdding(w, s, b).state.unspentOutputs == Updated(b.index, BlockTransactions(w, b), s.unspentOutputs)
  {
    IndicesBelowNext(w, s, b);
    MinedBlockIsAdded(w, s, publicKey, Last(s.blockchain), s.pendingTransactions, b);
    AddBlockEffect(w, s, b);
  }

  /** Any pool, valid on the present list or not: its block adds the coinbase and what the pool pays and takes
      away the listed entries the pool names, so it adds no more than 50 exactly when the pool pays no more
      than it takes. */
  lemma PoolBlockConservesExactly(w: World, s: LedgerState, publicKey: string, b: Block)
    requires MinedFromPool(w, s, publicKey, b)
    ensures var pool, after := s.pendingTransactions, TryAdding(w, s, b).state.unspentOutputs;
      && Total(after) + Taken(s.unspentOutputs, Spent(pool)) == Total(s.unspentOutputs) + COINBASE_AMOUNT + Paid(pool)
      && (Total(after) <= Total(s.unspentOutputs) + COINBASE_AMOUNT
          <==> Paid(pool) <= Taken(s.unspentOutputs, Spent(pool)))
  {
    var coinbase, pool := CoinbaseTransaction(w, b.index, publicKey), s.pendingTransactions;
    PoolBlockAdded(w, s, publicKey, b);
    UpdateAccounting(b.index, [coinbase] + pool, s.unspentOutputs);
    assert ([coinbase] + pool)[1..] == pool;
    assert References(coinbase.inputs) == [Reference(coinbase.inputs[0])];
    SurvivingIgnoresFreshKey(s.unspentOutputs, Reference(coinbase.inputs[0]), Spent(pool));
    TotalSplits(s.unspentOutputs, Spent(pool));
    TotalSplits(s.unspentOutputs, Spent([coinbase] + pool));
    assert OutputAmounts(coinbase.outputs) == [COINBASE_AMOUNT] && [COINBASE_AMOUNT][1..] == [];
    assert Sum([COINBASE_AMOUNT]) == COINBASE_AMOUNT;
  }

  /** Of a pool whose transactions are all valid: its block is a checked one exactly when the totals of the pool stay below 2^32
      and its inputs name the keys they were checked against, conservative exactly when moreover no id is
      named twice. A checked one adds no more than 50 exactly when the pool counts no more again than is
      removed beside the entries checked. */
  lemma ValidPoolConservesExactly(w: World, s: LedgerState, publicKey: string, b: Block)
    requires MinedFromPool(w, s, publicKey, b) && ValidPool(w, s)
    ensures Checked(w, b.index, BlockTransactions(w, b), s.unspentOutputs) <==>
      && (forall t :: t in s.pendingTransactions ==> SmallTotals(t, s.unspentOutputs))
      && NamesFirstEntries(AllInputs(s.pendingTransactions), s.unspentOutputs)
    ensures Conservative(w, b.index, BlockTransactions(w, b), s.unspentOutputs) <==>
      && Checked(w, b.index, BlockTransactions(w, b), s.unspentOutputs)
      && DistinctIds(AllInputs(s.pendingTransactions))
    ensures Checked(w, b.index, BlockTransactions(w, b), s.unspentOutputs) ==>
      var inputs := AllInputs(s.pendingTransactions);
      (Total(TryAdding(w, s, b).state.unspentOutputs) <= Total(s.unspentOutputs) + COINBASE_AMOUNT <==>
        Repeated(inputs, s.unspentOutputs)
        <= Collateral(s.unspentOutputs, Spent(s.pendingTransactions), InputIds(inputs)))
  {
    PoolBlockAdded(w, s, publicKey, b);
    if Checked(w, b.index, BlockTransactions(w, b), s.unspentOutputs) {
      forall t | t in s.pendingTransactions
        ensures SmallTotals(t, s.unspentOutputs)
      {
        assert Balanced(w, t, s.unspentOutputs);
      }
      ConservesExactly(w, b.index, BlockTransactions(w, b), s.unspentOutputs);
    }
  }

  /** A pool that names no listed entry has its outputs paid on top of the coinbase, from nothing: every
      entry stays, and the total rises by 50 and by all the pool pays. */
  lemma UnlistedPoolPaysInFull(w: World, s: LedgerState, publicKey: string, b: Block)
    requires MinedFromPool(w, s, publicKey, b)
    requires forall e :: e in s.unspentOutputs ==> KeyOf(e) !in Spent(s.pendingTransactions)
    ensures s.unspentOutputs <= TryAdding(w, s, b).state.unspentOutputs
    ensures Total(TryAdding(w, s, b).state.unspentOutputs)
         == Total(s.unspentOutputs) + COINBASE_AMOUNT + Paid(s.pendingTransactions)
  {
    var coinbase := CoinbaseTransaction(w, b.index, publicKey);
    PoolBlockAdded(w, s, publicKey, b);
    PoolBlockConservesExactly(w, s, publicKey, b);
    NothingTaken(s.unspentOutputs, Spent(s.pendingTransactions));
    assert References(coinbase.inputs) == [Reference(coinbase.inputs[0])];
    SurvivingIgnoresFreshKey(s.unspentOutputs, Reference(coinbase.inputs[0]), Spent(s.pendingTransactions));
    assert ([coinbase] + s.pendingTransactions)[1..] == s.pendingTransactions;
  }

  // A pool a received block has made stale

  lemma {:induction false} UnconfirmedKeepsAll(pending: seq<Transaction>, transactions: seq<Transaction>)
    requires forall t :: t in pending ==> !Confirms(transactions, t.id)
    ensures Unconfirmed(pending, transactions) == pending
  {
    if pending != [] {
      UnconfirmedKeepsAll(pending[1..], transactions);
    }
  }

  // The keys are listed before the block and spent by it.
  ghost predicate SpentFirst(w: World, s: LedgerState, received: Block, keys: seq<Key>) {
    forall k :: k in keys ==> HasKey(s.unspentOutputs, k) && k in SpentIn(w, received)
  }

  /** The pool is purged by id and never checked again: when a received block spends what the pool names under
      other ids, the pool stays as it is, and the block mined from it pays all of its outputs from nothing. */
  lemma StalePoolPaysInFull(w: World, s: LedgerState, received: Block, publicKey: string, b: Block)
    requires Consistent(w, s) && s.blockchain[0].index + |s.blockchain| < TWO_32
    requires Extends(Last(s.blockchain), received) && SpentFirst(w, s, received, Spent(s.pendingTransactions))
    requires forall t :: t in s.pendingTransactions ==> !Confirms(BlockTransactions(w, received), t.id)
    requires MinedFromPool(w, TryAdding(w, s, received).state, publicKey, b)
    ensures var stale := TryAdding(w, s, received).state;
      && stale.pendingTransactions == s.pendingTransactions
      && Total(TryAdding(w, stale, b).state.unspentOutputs)
         == Total(stale.unspentOutputs) + COINBASE_AMOUNT + Paid(s.pendingTransactions)
  {
    var stale := TryAdding(w, s, received).state;
    AddBlockEffect(w, s, received);
    UnconfirmedKeepsAll(s.pendingTransactions, BlockTransactions(w, received));
    IndicesBelowNext(w, s, received);
    forall e | e in stale.unspentOutputs
      ensures KeyOf(e) !in Spent(s.pendingTransactions)
    {
      SurvivingMembers(s.unspentOutputs, SpentIn(w, received), e);
      if e in CreatedIn(w, received) {
        CreatedKeys(received.index, BlockTransactions(w, received), e);
      }
    }
    UnlistedPoolPaysInFull(w, stale, publicKey, b);
  }

  // One transaction twice

  lemma InputsOfTwo(t: Transaction, unspent: seq<UnspentOutput>)
    ensures AllInputs([t, t]) == t.inputs + t.inputs
    ensures NamesFirstEntries(t.inputs, unspent) ==> NamesFirstEntries(AllInputs([t, t]), unspent)
  {
    assert [t, t][1..] == [t] && [t][1..] == [];
    assert AllInputs([t]) == t.inputs + [] == t.inputs;
  }

  // In front of inputs that name all its ids again, a list counts in full.
  lemma {:induction false} RepeatedInFront(a: seq<Input>, b: seq<Input>, unspent: seq<UnspentOutput>)
    requires InputIds(a) <= InputIds(b)
    ensures Repeated(a + b, unspent) == Sum(ReferencedAmounts(a, unspent)) + Repeated(b, unspent)
  {
    if a == [] {
      assert a + b == b;
    } else {
      var rest := a[1..];
      assert (a + b)[1..] == rest + b;
      InputIdsCons(a);
      RepeatedInFront(rest, b, unspent);
      assert a[0].transactionOutputId in InputIds(rest + b) by {
        var j :| 0 <= j < |b| && b[j].transactionOutputId == a[0].transactionOutputId;
        assert (rest + b)[|rest| + j] == b[j];
      }
      assert ReferencedAmounts(a, unspent)[1..] == ReferencedAmounts(rest, unspent);
    }
  }

  lemma PoolOfTwo(w: World, s: LedgerState, t: Transaction)
    requires s.pendingTransactions == [] && IsTransactionValid(w, t, s.unspentOutputs)
    ensures SubmitAll(w, s, [t, t]) == s.(pendingTransactions := [t, t])
  {
    var once := s.(pendingTransactions := [t]);
    assert Submit(w, s, t) == once;
    assert Submit(w, once, t) == s.(pendingTransactions := [t, t]);
    assert [t, t][1..] == [t] && [t][1..] == [];
    assert SubmitAll(w, once, [t]) == SubmitAll(w, Submit(w, once, t), []);
  }

  /** The node accepts the same transaction as often as it is submitted, and the block mined from that pool
      pays its outputs twice: with single entries the total rises by 50 and by all of those outputs. */
  lemma SubmittedTwicePaysTwice(w: World, s: LedgerState, t: Transaction, publicKey: string, b: Block)
    requires s.pendingTransactions == [] && Balanced(w, t, s.unspentOutputs)
    requires NamesFirstEntries(t.inputs, s.unspentOutputs) && DistinctIds(t.inputs)
    requires SingleEntries(s.unspentOutputs, Spent([t, t]))
    requires MinedFromPool(w, SubmitAll(w, s, [t, t]), publicKey, b)
    ensures SubmitAll(w, s, [t, t]).pendingTransactions == [t, t]
    ensures Total(TryAdding(w, SubmitAll(w, s, [t, t]), b).state.unspentOutputs)
         == Total(s.unspentOutputs) + COINBASE_AMOUNT + Sum(OutputAmounts(t.outputs))
  {
    PoolOfTwo(w, s, t);
    InputsOfTwo(t, s.unspentOutputs);
    PoolBlockAdded(w, SubmitAll(w, s, [t, t]), publicKey, b);
    BlockAccounting(w, b.index, BlockTransactions(w, b), s.unspentOutputs);
    NoBlockCollateral([t, t], s.unspentOutputs);
    RepeatedInFront(t.inputs, t.inputs, s.unspentOutputs);
    NothingRepeated(t.inputs, s.unspentOutputs);
    BalancedExactly(w, t, s.unspentOutputs);
  }
}
