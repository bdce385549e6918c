/** A transfer from the client's query to the balances after its block, across client, wire and node. */
module Transfers {
  import opened Basics
  import opened JsonValues
  import opened Environment
  import opened Entities
  import opened Transactions
  import opened Blocks
  import opened Encodings
  import opened Wire
  import opened Ledger
  import opened Client
  import opened Nodes

  // What a node answers to the client's query: the entries of its address.
  function Answered(s: LedgerState, origin: string): Json {
    Arr(PrintedEach(UnspentOutputToJson, OwnedEntries(s.unspentOutputs, origin)))
  }

  // What the client posts for an answer; None when the answer does not read or the funds do not suffice.
  function Posted(w: World, answer: Json, origin: string, destination: string, privateKey: string, amount: u64)
    : Option<Json>
  {
    var entries :- ParsedEach(JsonToUnspentOutput, Elements(answer));
    var t :- Transfer(w, entries, origin, destination, privateKey, amount);
    Some(TransactionToJson(t))
  }

  /** Over the wire the client works on exactly the entries the node holds for it. */
  lemma PostedIsTransfer(w: World, s: LedgerState, origin: string, destination: string, privateKey: string, amount: u64)
    ensures Posted(w, Answered(s, origin), origin, destination, privateKey, amount)
         == match Transfer(w, OwnedEntries(s.unspentOutputs, origin), origin, destination, privateKey, amount)
            case None => None
            case Some(t) => Some(TransactionToJson(t))
  {
    UnspentOutputsRoundTrip(OwnedEntries(s.unspentOutputs, origin));
  }

  lemma TransferIndicesAreListed(w: World, unspent: seq<UnspentOutput>, origin: string, destination: string,
                                 privateKey: string, amount: u64, bound: nat)
    requires Owned(unspent, origin) >= amount
    requires forall e :: e in unspent ==> e.transactionIndex < bound
    ensures var t := Transfer(w, OwnedEntries(unspent, origin), origin, destination, privateKey, amount);
      t.Some? && forall i :: 0 <= i < |t.value.inputs| ==> t.value.inputs[i].transactionOutputIndex < bound
  {
    var entries := OwnedEntries(unspent, origin);
    var chosen := Chosen(entries, origin, amount);
    OwnedOfOwnedEntries(unspent, origin);
    TransferShape(w, entries, origin, destination, privateKey, amount);
    var t := Transfer(w, entries, origin, destination, privateKey, amount).value;
    forall i | 0 <= i < |t.inputs|
      ensures t.inputs[i].transactionOutputIndex < bound
    {
      assert References(t.inputs)[i] == References(InputsFor(chosen))[i];
      ChosenMembers(entries, origin, amount, chosen[i]);
      OwnedEntriesMembers(unspent, origin, chosen[i]);
    }
  }

  ghost predicate CanTransfer(w: World, s: LedgerState, origin: string, privateKey: string, amount: u64) {
    && Consistent(w, s) && s.blockchain[0].index + |s.blockchain| < TWO_32
    && SignsFor(w, privateKey, origin) && DistinctTransactions(s.unspentOutputs)
    && Owned(s.unspentOutputs, origin) >= amount
  }

  /** From query to balances. The node answers a query, the client builds its transaction from that answer
      and posts it, the node reads it and accepts it into its pool, all as JSON values; and when the next
      block, however it got here, carries the coinbase of its index and that transaction, adding it takes the
      amount from the origin, gives it to the destination and 50 to the miner, leaves every other balance
      alone, and takes the transaction off the pool. */
  lemma TransferThroughNode(w: World, s: LedgerState, b: Block, origin: string, destination: string, miner: string,
                            privateKey: string, amount: u64, t: Transaction, address: string)
    requires JsonCodec(w) && CanTransfer(w, s, origin, privateKey, amount) && Extends(Last(s.blockchain), b)
    requires IsTransfer(w, s.unspentOutputs, origin, destination, privateKey, amount, t)
    requires b.data == SerializeTransactions(w, [CoinbaseTransaction(w, b.index, miner), t])
    ensures Posted(w, Answered(s, origin), origin, destination, privateKey, amount) == Some(TransactionToJson(t))
    ensures SubmitPosted(w, s, TransactionToJson(t)) == s.(pendingTransactions := s.pendingTransactions + [t])
    ensures var r := TryAdding(w, SubmitPosted(w, s, TransactionToJson(t)), b);
      && r.completed && r.state.blockchain == s.blockchain + [b]
      && Owned(r.state.unspentOutputs, address) + AmountIf(address == origin, amount)
         == Owned(s.unspentOutputs, address) + AmountIf(address == destination, amount) + AmountIf(address == miner, COINBASE_AMOUNT)
      && forall p :: p in r.state.pendingTransactions ==> p.id != t.id
  {
    var both := [CoinbaseTransaction(w, b.index, miner), t];
    IndicesBelowNext(w, s, b);
    TransferIndicesAreListed(w, s.unspentOutputs, origin, destination, privateKey, amount, b.index);
    PostedIsTransfer(w, s, origin, destination, privateKey, amount);
    TransferEndToEnd(w, s.unspentOutputs, b.index, origin, destination, miner, privateKey, amount, address);
    TransactionRoundTrip(t);
    PairReadsBack(w, b.index, miner, t);
    var submitted := SubmitPosted(w, s, TransactionToJson(t));
    AddBlockEffect(w, submitted, b);
    LeavesPool(submitted.pendingTransactions, both, t);
  }

  lemma PairReadsBack(w: World, n: u64, miner: string, t: Transaction)
    requires JsonCodec(w) && n < TWO_32 && SmallIndices(t)
    ensures w.readTransactions(SerializeTransactions(w, [CoinbaseTransaction(w, n, miner), t]))
         == Some([CoinbaseTransaction(w, n, miner), t])
  {
    TransactionsRoundTrip([CoinbaseTransaction(w, n, miner), t]);
  }

  lemma LeavesPool(pending: seq<Transaction>, added: seq<Transaction>, t: Transaction)
    requires t in added
    ensures forall p :: p in Unconfirmed(pending, added) ==> p.id != t.id
  {
    forall p | p in Unconfirmed(pending, added)
      ensures p.id != t.id
    {
      UnconfirmedMembers(pending, added, p);
    }
  }
}
