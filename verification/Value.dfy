/** Conservation of value: what a block does to the total of the unspent outputs. */
module Value {
  import opened Basics
  import opened Entities
  import opened Environment
  import opened Transactions
  import opened Blocks
  import opened Ledger

  // The amounts of the first entry of each of the ids.
  function FirstEntries(unspent: seq<UnspentOutput>, ids: set<string>): nat {
    if unspent == [] then 0
    else if unspent[0].transactionId in ids then
      unspent[0].amount + FirstEntries(unspent[1..], ids - {unspent[0].transactionId})
    else FirstEntries(unspent[1..], ids)
  }

  // The amounts of the entries with a spent key that are not the first entry of one of the ids.
  function Collateral(unspent: seq<UnspentOutput>, spent: seq<Key>, ids: set<string>): nat {
    if unspent == [] then 0
    else
      var e := unspent[0];
      if e.transactionId in ids then Collateral(unspent[1..], spent, ids - {e.transactionId})
      else (if KeyOf(e) in spent then e.amount else 0) + Collateral(unspent[1..], spent, ids)
  }

  // The first entry of each id has a spent key.
  ghost predicate FirstEntriesSpent(unspent: seq<UnspentOutput>, spent: seq<Key>, ids: set<string>) {
    forall id :: id in ids && FirstWithId(id, unspent).Some? ==> KeyOf(FirstWithId(id, unspent).value) in spent
  }

  lemma {:induction false} RemovedSplits(unspent: seq<UnspentOutput>, spent: seq<Key>, ids: set<string>)
    requires FirstEntriesSpent(unspent, spent, ids)
    ensures Total(unspent)
         == Total(Surviving(unspent, spent)) + FirstEntries(unspent, ids) + Collateral(unspent, spent, ids)
  {
    if unspent != [] {
      var e, rest := unspent[0], unspent[1..];
      var pending := ids - {e.transactionId};
      assert forall id :: id != e.transactionId ==> FirstWithId(id, rest) == FirstWithId(id, unspent);
      if e.transactionId in ids {
        assert FirstWithId(e.transactionId, unspent) == Some(e);
        RemovedSplits(rest, spent, pending);
      } else {
        RemovedSplits(rest, spent, ids);
      }
      TotalAppend(if KeyOf(e) in spent then [] else [e], Surviving(rest, spent));
    }
  }

  lemma {:induction false} FirstEntriesAdd(unspent: seq<UnspentOutput>, ids: set<string>, id: string)
    requires id !in ids && FirstWithId(id, unspent).Some?
    ensures FirstEntries(unspent, ids + {id}) == FirstEntries(unspent, ids) + FirstWithId(id, unspent).value.amount
  {
    var e, rest := unspent[0], unspent[1..];
    if e.transactionId == id {
      assert ids + {id} - {id} == ids;
    } else if e.transactionId in ids {
      FirstEntriesAdd(rest, ids - {e.transactionId}, id);
      assert ids + {id} - {e.transactionId} == ids - {e.transactionId} + {id};
    } else {
      FirstEntriesAdd(rest, ids, id);
    }
  }

  lemma {:induction false} NoFirstEntries(unspent: seq<UnspentOutput>)
    ensures FirstEntries(unspent, {}) == 0
  {
    if unspent != [] {
      NoFirstEntries(unspent[1..]);
    }
  }

  // The inputs of a list of transactions, in order

  function AllInputs(transactions: seq<Transaction>): seq<Input> {
    if transactions == [] then [] else transactions[0].inputs + AllInputs(transactions[1..])
  }

  function InputIds(inputs: seq<Input>): set<string> {
    set i | 0 <= i < |inputs| :: inputs[i].transactionOutputId
  }

  ghost predicate DistinctIds(inputs: seq<Input>) {
    forall i, j :: 0 <= i < j < |inputs| ==> inputs[i].transactionOutputId != inputs[j].transactionOutputId
  }

  // Every input names the key of the first entry with its id.
  ghost predicate NamesFirstEntries(inputs: seq<Input>, unspent: seq<UnspentOutput>) {
    forall i :: 0 <= i < |inputs| ==>
      FirstWithKey(Reference(inputs[i]), unspent) == FirstWithId(inputs[i].transactionOutputId, unspent)
      && FirstWithId(inputs[i].transactionOutputId, unspent).Some?
  }

  // What inputs bring whose id is named again later: value that is counted more than once.
  function Repeated(inputs: seq<Input>, unspent: seq<UnspentOutput>): nat {
    if inputs == [] then 0
    else (if inputs[0].transactionOutputId in InputIds(inputs[1..]) then ReferencedAmount(inputs[0], unspent) else 0)
         + Repeated(inputs[1..], unspent)
  }

  lemma InputIdsCons(inputs: seq<Input>)
    requires inputs != []
    ensures InputIds(inputs) == InputIds(inputs[1..]) + {inputs[0].transactionOutputId}
  {
    var rest := inputs[1..];
    assert forall i :: 0 <= i < |rest| ==> rest[i] == inputs[i + 1];
    forall x | x in InputIds(inputs)
      ensures x in InputIds(rest) + {inputs[0].transactionOutputId}
    {
      var i :| 0 <= i < |inputs| && inputs[i].transactionOutputId == x;
      assert i > 0 ==> rest[i - 1] == inputs[i];
    }
  }

  lemma {:induction false} FirstEntriesOfInputs(unspent: seq<UnspentOutput>, inputs: seq<Input>)
    requires NamesFirstEntries(inputs, unspent)
    ensures FirstEntries(unspent, InputIds(inputs)) + Repeated(inputs, unspent) == Sum(ReferencedAmounts(inputs, unspent))
  {
    if inputs == [] {
      NoFirstEntries(unspent);
      assert InputIds(inputs) == {};
    } else {
      var id, rest := inputs[0].transactionOutputId, inputs[1..];
      assert forall i :: 0 <= i < |rest| ==> rest[i] == inputs[i + 1];
      FirstEntriesOfInputs(unspent, rest);
      InputIdsCons(inputs);
      if id in InputIds(rest) {
        assert InputIds(inputs) == InputIds(rest);
      } else {
        FirstEntriesAdd(unspent, InputIds(rest), id);
      }
      assert ReferencedAmounts(inputs, unspent)[1..] == ReferencedAmounts(rest, unspent);
    }
  }

  lemma {:induction false} NothingRepeated(inputs: seq<Input>, unspent: seq<UnspentOutput>)
    requires DistinctIds(inputs)
    ensures Repeated(inputs, unspent) == 0
  {
    if inputs != [] {
      assert forall i :: 0 <= i < |inputs| - 1 ==> inputs[1..][i] == inputs[i + 1];
      NothingRepeated(inputs[1..], unspent);
    }
  }

  lemma {:induction false} SpentOfAllInputs(transactions: seq<Transaction>)
    ensures Spent(transactions) == References(AllInputs(transactions))
  {
    if transactions != [] {
      SpentOfAllInputs(transactions[1..]);
    }
  }

  lemma {:induction false} TotalOfCreatedBy(index: u64, t: Transaction)
    ensures Total(CreatedBy(index, t)) == Sum(OutputAmounts(t.outputs))
    decreases |t.outputs|
  {
    if t.outputs != [] {
      var tail := t.(outputs := t.outputs[1..]);
      assert CreatedBy(index, t)[1..] == CreatedBy(index, tail);
      assert OutputAmounts(t.outputs)[1..] == OutputAmounts(tail.outputs);
      TotalOfCreatedBy(index, tail);
    }
  }

  // Any block, checked or not

  // The amounts of the listed entries whose key is among the spent ones.
  function Taken(unspent: seq<UnspentOutput>, spent: seq<Key>): nat {
    if unspent == [] then 0
    else (if KeyOf(unspent[0]) in spent then unspent[0].amount else 0) + Taken(unspent[1..], spent)
  }

  // What the outputs of the transactions come to.
  function Paid(transactions: seq<Transaction>): nat {
    if transactions == [] then 0 else Sum(OutputAmounts(transactions[0].outputs)) + Paid(transactions[1..])
  }

  lemma {:induction false} TotalSplits(unspent: seq<UnspentOutput>, spent: seq<Key>)
    ensures Total(unspent) == Total(Surviving(unspent, spent)) + Taken(unspent, spent)
  {
    if unspent != [] {
      TotalSplits(unspent[1..], spent);
      TotalAppend(if KeyOf(unspent[0]) in spent then [] else [unspent[0]], Surviving(unspent[1..], spent));
    }
  }

  lemma {:induction false} TotalOfCreated(index: u64, transactions: seq<Transaction>)
    ensures Total(Created(index, transactions)) == Paid(transactions)
  {
    if transactions != [] {
      TotalOfCreated(index, transactions[1..]);
      TotalOfCreatedBy(index, transactions[0]);
      TotalAppend(CreatedBy(index, transactions[0]), Created(index, transactions[1..]));
    }
  }

  /** Whatever its transactions, a block adds what they pay and takes away the entries they name. */
  lemma UpdateAccounting(index: u64, transactions: seq<Transaction>, unspent: seq<UnspentOutput>)
    ensures Total(Updated(index, transactions, unspent)) + Taken(unspent, Spent(transactions))
         == Total(unspent) + Paid(transactions)
  {
    TotalSplits(unspent, Spent(transactions));
    TotalOfCreated(index, transactions);
    TotalAppend(Surviving(unspent, Spent(transactions)), Created(index, transactions));
  }

  lemma {:induction false} NothingTaken(unspent: seq<UnspentOutput>, spent: seq<Key>)
    requires forall e :: e in unspent ==> KeyOf(e) !in spent
    ensures Taken(unspent, spent) == 0 && Surviving(unspent, spent) == unspent
  {
    if unspent != [] {
      NothingTaken(unspent[1..], spent);
    }
  }

  // What a transaction is taken to bring and what it pays both stay below 2^32.
  ghost predicate SmallTotals(t: Transaction, unspent: seq<UnspentOutput>) {
    Sum(ReferencedAmounts(t.inputs, unspent)) < TWO_32 && Sum(OutputAmounts(t.outputs)) < TWO_32
  }

  ghost predicate Balanced(w: World, t: Transaction, unspent: seq<UnspentOutput>) {
    IsTransactionValid(w, t, unspent) && SmallTotals(t, unspent)
  }

  lemma ReferencedSumAppend(a: seq<Input>, b: seq<Input>, unspent: seq<UnspentOutput>)
    ensures Sum(ReferencedAmounts(a + b, unspent))
         == Sum(ReferencedAmounts(a, unspent)) + Sum(ReferencedAmounts(b, unspent))
  {
    SumAppend(ReferencedAmounts(a, unspent), ReferencedAmounts(b, unspent));
    assert ReferencedAmounts(a + b, unspent) == ReferencedAmounts(a, unspent) + ReferencedAmounts(b, unspent);
  }

  // Below 2^32 the 32-bit comparison is exact.
  lemma BalancedExactly(w: World, t: Transaction, unspent: seq<UnspentOutput>)
    requires Balanced(w, t, unspent)
    ensures Sum(ReferencedAmounts(t.inputs, unspent)) == Sum(OutputAmounts(t.outputs))
  {
    ValidMeansBalancedModulo32(w, t, unspent);
    var paid, brought := Sum(OutputAmounts(t.outputs)), Sum(ReferencedAmounts(t.inputs, unspent));
    assert paid % TWO_32 == paid && brought % TWO_32 == brought;
  }

  lemma {:induction false} BalancedTotals(w: World, index: u64, transactions: seq<Transaction>, unspent: seq<UnspentOutput>)
    requires forall t :: t in transactions ==> Balanced(w, t, unspent)
    ensures Total(Created(index, transactions)) == Sum(ReferencedAmounts(AllInputs(transactions), unspent))
  {
    if transactions != [] {
      var t, rest := transactions[0], transactions[1..];
      BalancedTotals(w, index, rest, unspent);
      BalancedExactly(w, t, unspent);
      TotalOfCreatedBy(index, t);
      TotalAppend(CreatedBy(index, t), Created(index, rest));
      ReferencedSumAppend(t.inputs, AllInputs(rest), unspent);
    }
  }

  lemma {:induction false} SurvivingIgnoresFreshKey(unspent: seq<UnspentOutput>, key: Key, spent: seq<Key>)
    requires forall e :: e in unspent ==> KeyOf(e) != key
    ensures Surviving(unspent, [key] + spent) == Surviving(unspent, spent)
  {
    if unspent != [] {
      SurvivingIgnoresFreshKey(unspent[1..], key, spent);
    }
  }

  /** A block with the coinbase of its index whose other transactions are valid on the list and name the
      keys they are checked against; the node itself does not check it. */
  ghost predicate Checked(w: World, index: u64, transactions: seq<Transaction>, unspent: seq<UnspentOutput>) {
    && (forall e :: e in unspent ==> e.transactionIndex < index)
    && transactions != [] && IsCoinbaseTransactionValid(w, index, transactions[0])
    && (forall t :: t in transactions[1..] ==> Balanced(w, t, unspent))
    && NamesFirstEntries(AllInputs(transactions[1..]), unspent)
  }

  /** A checked block that names no id twice. */
  ghost predicate Conservative(w: World, index: u64, transactions: seq<Transaction>, unspent: seq<UnspentOutput>) {
    Checked(w, index, transactions, unspent) && DistinctIds(AllInputs(transactions[1..]))
  }

  // What the block counts more than once.
  function BlockRepeated(transactions: seq<Transaction>, unspent: seq<UnspentOutput>): nat
    requires transactions != []
  {
    Repeated(AllInputs(transactions[1..]), unspent)
  }

  // What the block removes beyond the entries its inputs were checked against.
  function BlockCollateral(transactions: seq<Transaction>, unspent: seq<UnspentOutput>): nat
    requires transactions != []
  {
    Collateral(unspent, Spent(transactions[1..]), InputIds(AllInputs(transactions[1..])))
  }

  lemma InputsNameSpentKeys(transactions: seq<Transaction>, unspent: seq<UnspentOutput>)
    requires NamesFirstEntries(AllInputs(transactions), unspent)
    ensures FirstEntriesSpent(unspent, Spent(transactions), InputIds(AllInputs(transactions)))
  {
    var inputs := AllInputs(transactions);
    SpentOfAllInputs(transactions);
    forall id | id in InputIds(inputs)
      ensures FirstWithId(id, unspent).Some? ==> KeyOf(FirstWithId(id, unspent).value) in Spent(transactions)
    {
      var i :| 0 <= i < |inputs| && inputs[i].transactionOutputId == id;
      assert Reference(inputs[i]) == References(inputs)[i];
    }
  }

  /** The books of a block: the coinbase adds 50, the other transactions move value, what they count again
      comes on top, and every entry removed beyond those checked is lost. */
  lemma BlockAccounting(w: World, index: u64, transactions: seq<Transaction>, unspent: seq<UnspentOutput>)
    requires Checked(w, index, transactions, unspent)
    ensures Total(Updated(index, transactions, unspent)) + BlockCollateral(transactions, unspent)
         == Total(unspent) + COINBASE_AMOUNT + BlockRepeated(transactions, unspent)
  {
    var coinbase, others := transactions[0], transactions[1..];
    var inputs := AllInputs(others);
    assert References(coinbase.inputs) == [Reference(coinbase.inputs[0])];
    SurvivingIgnoresFreshKey(unspent, Reference(coinbase.inputs[0]), Spent(others));
    InputsNameSpentKeys(others, unspent);
    RemovedSplits(unspent, Spent(others), InputIds(inputs));
    FirstEntriesOfInputs(unspent, inputs);
    BalancedTotals(w, index, others, unspent);
    TotalOfCreatedBy(index, coinbase);
    assert OutputAmounts(coinbase.outputs) == [COINBASE_AMOUNT];
    assert Sum([COINBASE_AMOUNT]) == COINBASE_AMOUNT;
    TotalAppend(CreatedBy(index, coinbase), Created(index, others));
    TotalAppend(Surviving(unspent, Spent(transactions)), Created(index, transactions));
  }

  // Each spent key labels at most one entry.
  ghost predicate SingleEntries(unspent: seq<UnspentOutput>, spent: seq<Key>) {
    forall i, j :: 0 <= i < j < |unspent| && KeyOf(unspent[i]) == KeyOf(unspent[j]) ==> KeyOf(unspent[i]) !in spent
  }

  lemma {:induction false} NoCollateral(unspent: seq<UnspentOutput>, spent: seq<Key>, ids: set<string>)
    requires SingleEntries(unspent, spent) && FirstEntriesSpent(unspent, spent, ids)
    requires forall k, l :: k in spent && l in spent && k.0 == l.0 ==> k == l
    requires forall e :: e in unspent && KeyOf(e) in spent ==> e.transactionId in ids
    ensures Collateral(unspent, spent, ids) == 0
  {
    if unspent != [] {
      var e, rest := unspent[0], unspent[1..];
      assert forall id :: id != e.transactionId ==> FirstWithId(id, rest) == FirstWithId(id, unspent);
      assert forall i :: 0 <= i < |rest| ==> rest[i] == unspent[i + 1];
      if e.transactionId in ids {
        assert FirstWithId(e.transactionId, unspent) == Some(e);
        forall f | f in rest && KeyOf(f) in spent
          ensures f.transactionId in ids - {e.transactionId}
        {
          var i :| 0 <= i < |rest| && rest[i] == f;
          assert unspent[i + 1] == f;
        }
        NoCollateral(rest, spent, ids - {e.transactionId});
      } else {
        NoCollateral(rest, spent, ids);
      }
    }
  }

  lemma SpentKeysOfInputs(transactions: seq<Transaction>, key: Key)
    requires key in Spent(transactions)
    ensures exists i :: 0 <= i < |AllInputs(transactions)| && Reference(AllInputs(transactions)[i]) == key
    ensures key.0 in InputIds(AllInputs(transactions))
  {
    var inputs := AllInputs(transactions);
    SpentOfAllInputs(transactions);
    var i :| 0 <= i < |inputs| && References(inputs)[i] == key;
    assert inputs[i].transactionOutputId in InputIds(inputs);
  }

  // The key a checked input names is that of the first entry with its id, so one id has one key.
  lemma OneKeyAnId(transactions: seq<Transaction>, unspent: seq<UnspentOutput>, k: Key, l: Key)
    requires NamesFirstEntries(AllInputs(transactions), unspent)
    requires k in Spent(transactions) && l in Spent(transactions) && k.0 == l.0
    ensures k == l
  {
    var inputs := AllInputs(transactions);
    SpentKeysOfInputs(transactions, k);
    SpentKeysOfInputs(transactions, l);
    var i :| 0 <= i < |inputs| && Reference(inputs[i]) == k;
    var j :| 0 <= j < |inputs| && Reference(inputs[j]) == l;
    assert KeyOf(FirstWithId(k.0, unspent).value) == k && KeyOf(FirstWithId(l.0, unspent).value) == l;
  }

  lemma NoBlockCollateral(transactions: seq<Transaction>, unspent: seq<UnspentOutput>)
    requires NamesFirstEntries(AllInputs(transactions), unspent)
    requires SingleEntries(unspent, Spent(transactions))
    ensures Collateral(unspent, Spent(transactions), InputIds(AllInputs(transactions))) == 0
  {
    InputsNameSpentKeys(transactions, unspent);
    forall e | e in unspent && KeyOf(e) in Spent(transactions)
      ensures e.transactionId in InputIds(AllInputs(transactions))
    {
      SpentKeysOfInputs(transactions, KeyOf(e));
    }
    forall k, l | k in Spent(transactions) && l in Spent(transactions) && k.0 == l.0
      ensures k == l
    {
      OneKeyAnId(transactions, unspent, k, l);
    }
    NoCollateral(unspent, Spent(transactions), InputIds(AllInputs(transactions)));
  }

  /** Exactly when a checked block adds no more than 50 to the total: when it counts no more again than it
      removes beside the entries checked, which is nothing where each referenced key labels one entry. */
  lemma ConservesExactly(w: World, index: u64, transactions: seq<Transaction>, unspent: seq<UnspentOutput>)
    requires Checked(w, index, transactions, unspent)
    ensures Total(Updated(index, transactions, unspent)) <= Total(unspent) + COINBASE_AMOUNT
        <==> BlockRepeated(transactions, unspent) <= BlockCollateral(transactions, unspent)
    ensures Total(Updated(index, transactions, unspent)) == Total(unspent) + COINBASE_AMOUNT
        <==> BlockRepeated(transactions, unspent) == BlockCollateral(transactions, unspent)
    ensures SingleEntries(unspent, Spent(transactions[1..])) ==> BlockCollateral(transactions, unspent) == 0
  {
    BlockAccounting(w, index, transactions, unspent);
    if SingleEntries(unspent, Spent(transactions[1..])) {
      NoBlockCollateral(transactions[1..], unspent);
    }
  }

  /** A conservative block adds at most 50 to the total, and exactly 50 if and only if nothing of
      value is removed beyond the entries checked; single entries per referenced key suffice. */
  lemma ValueConservation(w: World, index: u64, transactions: seq<Transaction>, unspent: seq<UnspentOutput>)
    requires Conservative(w, index, transactions, unspent)
    ensures Total(Updated(index, transactions, unspent)) <= Total(unspent) + COINBASE_AMOUNT
    ensures Total(Updated(index, transactions, unspent)) == Total(unspent) + COINBASE_AMOUNT
        <==> BlockCollateral(transactions, unspent) == 0
    ensures SingleEntries(unspent, Spent(transactions[1..])) ==> BlockCollateral(transactions, unspent) == 0
  {
    ConservesExactly(w, index, transactions, unspent);
    NothingRepeated(AllInputs(transactions[1..]), unspent);
  }

  ghost predicate ConservativeOn(w: World, front: seq<Block>, b: Block) {
    Conservative(w, b.index, BlockTransactions(w, b), Replay(w, front))
  }

  ghost predicate ConservativeChain(w: World, chain: seq<Block>)
    decreases |chain|
  {
    chain != [] &&
    var n := |chain| - 1;
    if n == 0 then BlockTransactions(w, chain[0]) == []
    else ConservativeChain(w, chain[..n]) && ConservativeOn(w, chain[..n], chain[n])
  }

  lemma SupplyStep(w: World, front: seq<Block>, b: Block)
    requires ConservativeOn(w, front, b)
    ensures Total(Replay(w, front + [b])) <= Total(Replay(w, front)) + COINBASE_AMOUNT
  {
    ReplayAppend(w, [], front, b);
    ValueConservation(w, b.index, BlockTransactions(w, b), Replay(w, front));
  }

  lemma NothingCreated(w: World, b: Block)
    requires BlockTransactions(w, b) == []
    ensures Replay(w, [] + [b]) == []
  {
    ReplayAppend(w, [], [], b);
  }

  /** Supply: a chain of conservative blocks on top of an empty one never holds more than 50 coins
      for each block after the first. */
  lemma {:induction false} SupplyBound(w: World, chain: seq<Block>)
    requires ConservativeChain(w, chain)
    ensures Total(Replay(w, chain)) <= COINBASE_AMOUNT * (|chain| - 1)
    decreases |chain|
  {
    var n := |chain| - 1;
    var front, b := chain[..n], chain[n];
    assert chain == front + [b];
    if n > 0 {
      SupplyBound(w, front);
      SupplyStep(w, front, b);
    } else {
      NothingCreated(w, b);
    }
  }
}
