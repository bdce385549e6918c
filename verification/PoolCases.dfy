/** Three ledgers whose pool makes the next block add more than 50. */
module PoolCases {
  import opened Basics
  import opened Environment
  import opened Entities
  import opened Transactions
  import opened Blocks
  import opened Encodings
  import opened Wire
  import opened Ledger
  import opened Value
  import opened Nodes
  import opened Mining
  import opened Pool

  // The block mined on the tip of a ledger with its pool, of difficulty 0, which any nonce meets.
  function NextBlock(w: World, s: LedgerState, publicKey: string, timestamp: int): Block
    requires s.blockchain != []
  {
    Candidate(w, publicKey, Last(s.blockchain), s.pendingTransactions, timestamp, 0, 0)
  }

  lemma NextBlockIsMined(w: World, s: LedgerState, publicKey: string, timestamp: int)
    requires HexDigests(w) && JsonCodec(w) && Consistent(w, s) && s.blockchain[0].index + |s.blockchain| < TWO_32
    requires forall t :: t in s.pendingTransactions ==> SmallIndices(t)
    ensures MinedFromPool(w, s, publicKey, NextBlock(w, s, publicKey, timestamp))
  {
    var b := NextBlock(w, s, publicKey, timestamp);
    assert IsNewBlockValid(w, b, Last(s.blockchain));
    assert HashMatches(b.hash, 0);
  }

  // What the owner of the first coinbase holds.
  function Reward(w: World, owner: string): UnspentOutput {
    UnspentOutput(CoinbaseTransaction(w, 1, owner).id, 1, owner, COINBASE_AMOUNT)
  }

  function Start(w: World): LedgerState {
    LedgerState([Genesis(w)], [], [])
  }

  // Genesis and a first block of nothing but the owner's coinbase.
  function Funded(w: World, owner: string, timestamp: int): LedgerState {
    TryAdding(w, Start(w), NextBlock(w, Start(w), owner, timestamp)).state
  }

  lemma FundedLedger(w: World, owner: string, timestamp: int)
    requires HexDigests(w) && JsonCodec(w)
    ensures var s := Funded(w, owner, timestamp);
      && Consistent(w, s) && |s.blockchain| == 2 && s.blockchain[0].index == 0
      && s.unspentOutputs == [Reward(w, owner)] && s.pendingTransactions == []
  {
    var s, b, coinbase := Start(w), NextBlock(w, Start(w), owner, timestamp), CoinbaseTransaction(w, 1, owner);
    GenesisCreatesNothing(w);
    NextBlockIsMined(w, s, owner, timestamp);
    PoolBlockAdded(w, s, owner, b);
    TryAddingKeepsConsistent(w, s, b);
    AddBlockEffect(w, s, b);
    assert Created(1, [coinbase]) == CreatedBy(1, coinbase) + Created(1, [coinbase][1..]);
    assert CreatedBy(1, coinbase) == [Reward(w, owner)];
    assert [coinbase] + [] == [coinbase];
  }

  // The reward paid on to somebody, by an input with its id and some index, signed by its owner.
  function Payment(w: World, owner: string, index: u64, privateKey: string, destination: string): Transaction {
    var outputs := [Output(destination, COINBASE_AMOUNT)];
    var id := TransactionId(w, [Input(Reward(w, owner).transactionId, index, "")], outputs);
    Transaction(id, [Input(Reward(w, owner).transactionId, index, w.sign(id, privateKey))], outputs)
  }

  lemma SingleAmount(amount: u64)
    ensures Sum([amount]) == amount
  {
    assert [amount][1..] == [];
  }

  /** The index does not matter: the payment is valid with any. */
  lemma PaymentIsValid(w: World, owner: string, index: u64, privateKey: string, destination: string)
    requires SignsFor(w, privateKey, owner)
    ensures var t := Payment(w, owner, index, privateKey, destination);
      && Balanced(w, t, [Reward(w, owner)]) && Sum(OutputAmounts(t.outputs)) == COINBASE_AMOUNT
      && Spent([t]) == [(Reward(w, owner).transactionId, index)] && Paid([t]) == COINBASE_AMOUNT
  {
    var t, reward := Payment(w, owner, index, privateKey, destination), Reward(w, owner);
    InputsTextIgnoresSignatures(t.inputs, [Input(reward.transactionId, index, "")]);
    assert References(t.inputs) == [(reward.transactionId, index)];
    assert OutputAmounts(t.outputs) == [COINBASE_AMOUNT];
    assert ReferencedAmounts(t.inputs, [reward]) == [COINBASE_AMOUNT];
    SingleAmount(COINBASE_AMOUNT);
    ValidMeansBalancedModulo32(w, t, [reward]);
    assert [t][1..] == [] && Spent([t]) == References(t.inputs) + [] && Paid([t][1..]) == 0;
  }

  /** The same payment submitted twice: the next block takes the total from 50 to 150. */
  lemma TwiceHappens(w: World, owner: string, privateKey: string, destination: string, miner: string, timestamp: int)
    requires HexDigests(w) && JsonCodec(w) && SignsFor(w, privateKey, owner)
    ensures var s, t := Funded(w, owner, timestamp), Payment(w, owner, 1, privateKey, destination);
            var r := SubmitAll(w, s, [t, t]);
      && s.blockchain != [] && Total(s.unspentOutputs) == 50 && r == s.(pendingTransactions := [t, t])
      && Total(TryAdding(w, r, NextBlock(w, r, miner, timestamp)).state.unspentOutputs) == 150
  {
    var s, t, reward := Funded(w, owner, timestamp), Payment(w, owner, 1, privateKey, destination), Reward(w, owner);
    FundedLedger(w, owner, timestamp);
    PaymentIsValid(w, owner, 1, privateKey, destination);
    PoolOfTwo(w, s, t);
    var r := s.(pendingTransactions := [t, t]);
    NextBlockIsMined(w, r, miner, timestamp);
    assert [reward][1..] == [] && Total([reward]) == COINBASE_AMOUNT;
    SubmittedTwicePaysTwice(w, s, t, miner, NextBlock(w, r, miner, timestamp));
  }

  /** The payment with a wrong index: it is accepted, takes nothing, and the total goes from 50 to 150. */
  lemma WrongIndexHappens(w: World, owner: string, privateKey: string, destination: string, miner: string,
                          timestamp: int, index: u64)
    requires HexDigests(w) && JsonCodec(w) && SignsFor(w, privateKey, owner) && index != 1 && index < TWO_32
    ensures var s, t := Funded(w, owner, timestamp), Payment(w, owner, index, privateKey, destination);
            var r := Submit(w, s, t);
      && s.blockchain != [] && Total(s.unspentOutputs) == 50 && r == s.(pendingTransactions := [t])
      && ValidPool(w, r) && DistinctIds(AllInputs(r.pendingTransactions)) &&
      var after := TryAdding(w, r, NextBlock(w, r, miner, timestamp)).state.unspentOutputs;
      && Reward(w, owner) in after && Total(after) == 150
  {
    var s, t, reward := Funded(w, owner, timestamp), Payment(w, owner, index, privateKey, destination), Reward(w, owner);
    FundedLedger(w, owner, timestamp);
    PaymentIsValid(w, owner, index, privateKey, destination);
    var r := s.(pendingTransactions := [t]);
    NextBlockIsMined(w, r, miner, timestamp);
    assert [reward][1..] == [] && Total([reward]) == COINBASE_AMOUNT;
    assert [t][1..] == [] && AllInputs([t]) == t.inputs + [];
    UnlistedPoolPaysInFull(w, r, miner, NextBlock(w, r, miner, timestamp));
    assert reward == s.unspentOutputs[0];
  }

  // A block that pays on the reward and nothing else.
  lemma ReceivedTakesReward(w: World, s: LedgerState, reward: UnspentOutput, sender: string, received: Block)
    requires MinedFromPool(w, s, sender, received) && s.unspentOutputs == [reward]
    requires Spent(s.pendingTransactions) == [KeyOf(reward)] && Paid(s.pendingTransactions) == reward.amount
    ensures BlockTransactions(w, received) == [CoinbaseTransaction(w, received.index, sender)] + s.pendingTransactions
    ensures KeyOf(reward) in SpentIn(w, received)
    ensures Total(Updated(received.index, BlockTransactions(w, received), [reward])) == reward.amount + COINBASE_AMOUNT
  {
    var coinbase := CoinbaseTransaction(w, received.index, sender);
    PoolBlockAdded(w, s, sender, received);
    PoolBlockConservesExactly(w, s, sender, received);
    assert ([coinbase] + s.pendingTransactions)[1..] == s.pendingTransactions;
    assert [reward][1..] == [] && Total([reward]) == reward.amount;
    assert Taken([reward], [KeyOf(reward)]) == reward.amount + Taken([reward][1..], [KeyOf(reward)]);
    assert KeyOf(reward) == Spent(s.pendingTransactions)[0];
  }

  // Two payments of the only entry: one in the pool, the other in a block mined elsewhere on the same tip.
  ghost predicate Rivals(w: World, s: LedgerState, reward: UnspentOutput, t: Transaction, u: Transaction, sender: string) {
    && Consistent(w, s) && s.blockchain[0].index + |s.blockchain| + 1 < TWO_32
    && s.unspentOutputs == [reward] && s.pendingTransactions == [t]
    && Spent([t]) == Spent([u]) == [KeyOf(reward)] && Paid([t]) == Paid([u]) == reward.amount
    && SmallIndices(t) && SmallIndices(u)
    && t.id != u.id && t.id != CoinbaseTransaction(w, Successor(Last(s.blockchain).index), sender).id
  }

  // The block takes the entry away and leaves the pool alone.
  ghost predicate Displaces(w: World, s: LedgerState, reward: UnspentOutput, t: Transaction, received: Block)
    requires s.blockchain != []
  {
    var stale := TryAdding(w, s, received).state;
    && Extends(Last(s.blockchain), received) && KeyOf(reward) in SpentIn(w, received)
    && !Confirms(BlockTransactions(w, received), t.id)
    && Consistent(w, stale) && stale.blockchain == s.blockchain + [received]
    && stale.pendingTransactions == [t] && Total(stale.unspentOutputs) == reward.amount + COINBASE_AMOUNT
  }

  lemma RivalReceived(w: World, s: LedgerState, reward: UnspentOutput, t: Transaction, u: Transaction,
                      sender: string, timestamp: int)
    requires HexDigests(w) && JsonCodec(w) && Rivals(w, s, reward, t, u, sender)
    ensures Displaces(w, s, reward, t, NextBlock(w, s.(pendingTransactions := [u]), sender, timestamp))
  {
    var elsewhere := s.(pendingTransactions := [u]);
    var received := NextBlock(w, elsewhere, sender, timestamp);
    NextBlockIsMined(w, elsewhere, sender, timestamp);
    ReceivedTakesReward(w, elsewhere, reward, sender, received);
    AddBlockEffect(w, s, received);
    TryAddingKeepsConsistent(w, s, received);
    UnconfirmedKeepsAll([t], BlockTransactions(w, received));
  }

  lemma RivalPaidAgain(w: World, s: LedgerState, reward: UnspentOutput, t: Transaction, u: Transaction, sender: string,
                       received: Block, miner: string, b: Block)
    requires Rivals(w, s, reward, t, u, sender) && Displaces(w, s, reward, t, received)
    requires MinedFromPool(w, TryAdding(w, s, received).state, miner, b)
    ensures Total(TryAdding(w, TryAdding(w, s, received).state, b).state.unspentOutputs)
         == 2 * (reward.amount + COINBASE_AMOUNT)
  {
    assert SpentFirst(w, s, received, Spent(s.pendingTransactions)) by {
      assert reward in s.unspentOutputs;
    }
    StalePoolPaysInFull(w, s, received, miner, b);
  }

  /** The payment made stale by another payment of the same reward in a received block: the pool keeps it, and
      the block mined next takes the total from 100 to 200. */
  lemma StaleHappens(w: World, owner: string, privateKey: string, destination: string, other: string,
                     sender: string, miner: string, timestamp: int)
    requires HexDigests(w) && JsonCodec(w) && SignsFor(w, privateKey, owner)
    requires Payment(w, owner, 1, privateKey, destination).id != Payment(w, owner, 1, privateKey, other).id
    requires Payment(w, owner, 1, privateKey, destination).id != CoinbaseTransaction(w, 2, sender).id
    ensures var funded := Funded(w, owner, timestamp);
            var t, u := Payment(w, owner, 1, privateKey, destination), Payment(w, owner, 1, privateKey, other);
      && funded.blockchain != [] && Submit(w, funded, t).pendingTransactions == [t] &&
      var stale := TryAdding(w, Submit(w, funded, t), NextBlock(w, Submit(w, funded, u), sender, timestamp)).state;
      && stale.pendingTransactions == [t] && Total(stale.unspentOutputs) == 100
      && Total(TryAdding(w, stale, NextBlock(w, stale, miner, timestamp)).state.unspentOutputs) == 200
  {
    var funded := Funded(w, owner, timestamp);
    var t, u := Payment(w, owner, 1, privateKey, destination), Payment(w, owner, 1, privateKey, other);
    FundedLedger(w, owner, timestamp);
    PaymentIsValid(w, owner, 1, privateKey, destination);
    PaymentIsValid(w, owner, 1, privateKey, other);
    IndexIsPosition(w, funded.blockchain, 1);
    assert Submit(w, funded, t) == funded.(pendingTransactions := [t]);
    assert Submit(w, funded, u) == funded.(pendingTransactions := [t]).(pendingTransactions := [u]);
    var s, received := Submit(w, funded, t), NextBlock(w, Submit(w, funded, u), sender, timestamp);
    RivalReceived(w, s, Reward(w, owner), t, u, sender, timestamp);
    var stale := TryAdding(w, s, received).state;
    NextBlockIsMined(w, stale, miner, timestamp);
    RivalPaidAgain(w, s, Reward(w, owner), t, u, sender, received, miner, NextBlock(w, stale, miner, timestamp));
  }
}
