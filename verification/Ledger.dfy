/** The unspent outputs as a reading of the chain: replay, declarative form, balances. */
module Ledger {
  import opened Basics
  import opened Entities
  import opened Environment
  import opened Transactions
  import opened Blocks
  import opened Encodings

  predicate WellFormed(w: World, b: Block) {
    w.readTransactions(b.data).Some?
  }

  predicate AllWellFormed(w: World, chain: seq<Block>) {
    forall i :: 0 <= i < |chain| ==> WellFormed(w, chain[i])
  }

  // Data that does not parse stands for no transactions.
  function BlockTransactions(w: World, b: Block): seq<Transaction> {
    match w.readTransactions(b.data)
    case None => []
    case Some(transactions) => transactions
  }

  function CreatedIn(w: World, b: Block): seq<UnspentOutput> {
    Created(b.index, BlockTransactions(w, b))
  }

  function SpentIn(w: World, b: Block): seq<Key> {
    Spent(BlockTransactions(w, b))
  }

  // Replay: block after block, as the node maintains the list

  function ReplayFrom(w: World, unspent: seq<UnspentOutput>, chain: seq<Block>): seq<UnspentOutput>
    decreases |chain|
  {
    if chain == [] then unspent
    else ReplayFrom(w, Updated(chain[0].index, BlockTransactions(w, chain[0]), unspent), chain[1..])
  }

  function Replay(w: World, chain: seq<Block>): seq<UnspentOutput> {
    ReplayFrom(w, [], chain)
  }

  lemma {:induction false} ReplayAppend(w: World, unspent: seq<UnspentOutput>, chain: seq<Block>, b: Block)
    ensures ReplayFrom(w, unspent, chain + [b])
         == Updated(b.index, BlockTransactions(w, b), ReplayFrom(w, unspent, chain))
    decreases |chain|
  {
    if chain == [] {
      assert (chain + [b])[1..] == [];
    } else {
      assert (chain + [b])[1..] == chain[1..] + [b];
      ReplayAppend(w, Updated(chain[0].index, BlockTransactions(w, chain[0]), unspent), chain[1..], b);
    }
  }

  // Declaration: the outputs of each block that no strictly later block names

  function SpentBy(w: World, chain: seq<Block>): seq<Key> {
    if chain == [] then [] else SpentIn(w, chain[0]) + SpentBy(w, chain[1..])
  }

  function Declared(w: World, chain: seq<Block>): seq<UnspentOutput> {
    if chain == [] then []
    else Surviving(CreatedIn(w, chain[0]), SpentBy(w, chain[1..])) + Declared(w, chain[1..])
  }

  lemma {:induction false} SurvivingAppend(a: seq<UnspentOutput>, b: seq<UnspentOutput>, spent: seq<Key>)
    ensures Surviving(a + b, spent) == Surviving(a, spent) + Surviving(b, spent)
  {
    if a == [] {
      assert a + b == b;
    } else {
      assert (a + b)[1..] == a[1..] + b;
      SurvivingAppend(a[1..], b, spent);
    }
  }

  lemma {:induction false} SurvivingTwice(unspent: seq<UnspentOutput>, first: seq<Key>, second: seq<Key>)
    ensures Surviving(Surviving(unspent, first), second) == Surviving(unspent, first + second)
  {
    if unspent != [] {
      SurvivingTwice(unspent[1..], first, second);
      SurvivingAppend(Surviving([unspent[0]], first), Surviving(unspent[1..], first), second);
      assert Surviving([unspent[0]], first) == if KeyOf(unspent[0]) in first then [] else [unspent[0]];
      assert Surviving([unspent[0]], second) == if KeyOf(unspent[0]) in second then [] else [unspent[0]];
    }
  }

  lemma {:induction false} SurvivingAll(unspent: seq<UnspentOutput>)
    ensures Surviving(unspent, []) == unspent
  {
    if unspent != [] {
      SurvivingAll(unspent[1..]);
    }
  }

  // One update followed by later spending.
  lemma SurvivingAfterUpdate(unspent: seq<UnspentOutput>, spent: seq<Key>, created: seq<UnspentOutput>, later: seq<Key>)
    ensures Surviving(Surviving(unspent, spent) + created, later)
         == Surviving(unspent, spent + later) + Surviving(created, later)
  {
    SurvivingAppend(Surviving(unspent, spent), created, later);
    SurvivingTwice(unspent, spent, later);
  }

  lemma Regroup<T>(a: seq<T>, b: seq<T>, c: seq<T>)
    ensures a + b + c == a + (b + c)
  {
  }

  lemma {:induction false} ReplayFromIsDeclared(w: World, unspent: seq<UnspentOutput>, chain: seq<Block>)
    ensures ReplayFrom(w, unspent, chain) == Surviving(unspent, SpentBy(w, chain)) + Declared(w, chain)
    decreases |chain|
  {
    if chain == [] {
      SurvivingAll(unspent);
    } else {
      var b, rest := chain[0], chain[1..];
      ReplayFromIsDeclared(w, Updated(b.index, BlockTransactions(w, b), unspent), rest);
      SurvivingAfterUpdate(unspent, SpentIn(w, b), CreatedIn(w, b), SpentBy(w, rest));
      Regroup(Surviving(unspent, SpentBy(w, chain)), Surviving(CreatedIn(w, b), SpentBy(w, rest)), Declared(w, rest));
    }
  }

  /** The list the node maintains incrementally is, entry for entry and in order, the declared one. */
  lemma ReplayIsDeclared(w: World, chain: seq<Block>)
    ensures Replay(w, chain) == Declared(w, chain)
  {
    ReplayFromIsDeclared(w, [], chain);
  }

  // Membership

  lemma {:induction false} SurvivingMembers(unspent: seq<UnspentOutput>, spent: seq<Key>, e: UnspentOutput)
    ensures e in Surviving(unspent, spent) <==> e in unspent && KeyOf(e) !in spent
  {
    if unspent != [] {
      SurvivingMembers(unspent[1..], spent, e);
      assert e in unspent <==> e == unspent[0] || e in unspent[1..];
    }
  }

  lemma {:induction false} SpentByMembers(w: World, chain: seq<Block>, key: Key)
    ensures key in SpentBy(w, chain) <==> exists j :: 0 <= j < |chain| && key in SpentIn(w, chain[j])
  {
    if chain != [] {
      SpentByMembers(w, chain[1..], key);
      if j :| 0 <= j < |chain| && key in SpentIn(w, chain[j]) {
        assert j > 0 ==> chain[1..][j - 1] == chain[j];
      }
      if key in SpentBy(w, chain[1..]) {
        var j :| 0 <= j < |chain[1..]| && key in SpentIn(w, chain[1..][j]);
        assert key in SpentIn(w, chain[j + 1]);
      }
    }
  }

  // Block i makes the entry, and no later block of the chain names its key.
  ghost predicate LivesFrom(w: World, chain: seq<Block>, i: int, e: UnspentOutput) {
    && 0 <= i < |chain| && e in CreatedIn(w, chain[i])
    && forall j :: i < j < |chain| ==> KeyOf(e) !in SpentIn(w, chain[j])
  }

  lemma {:induction false} DeclaredMembers(w: World, chain: seq<Block>, e: UnspentOutput)
    ensures e in Declared(w, chain) <==> exists i :: LivesFrom(w, chain, i, e)
  {
    if chain != [] {
      var rest := chain[1..];
      DeclaredMembers(w, rest, e);
      SurvivingMembers(CreatedIn(w, chain[0]), SpentBy(w, rest), e);
      SpentByMembers(w, rest, KeyOf(e));
      assert forall j :: 0 <= j < |rest| ==> rest[j] == chain[j + 1];
      if i :| LivesFrom(w, chain, i, e) {
        assert i > 0 ==> LivesFrom(w, rest, i - 1, e);
      }
      if e in Declared(w, rest) {
        var i :| LivesFrom(w, rest, i, e);
        assert forall j :: i + 1 < j < |chain| ==> chain[j] == rest[j - 1];
        assert LivesFrom(w, chain, i + 1, e);
      }
      if e in Surviving(CreatedIn(w, chain[0]), SpentBy(w, rest)) {
        assert forall j :: 0 < j < |chain| ==> chain[j] == rest[j - 1];
        assert LivesFrom(w, chain, 0, e);
      }
    }
  }

  // Spent stays spent

  ghost predicate HasKey(unspent: seq<UnspentOutput>, key: Key) {
    exists e :: e in unspent && KeyOf(e) == key
  }

  lemma {:induction false} CreatedKeys(index: u64, transactions: seq<Transaction>, e: UnspentOutput)
    requires e in Created(index, transactions)
    ensures e.transactionIndex == index
  {
    if e !in CreatedBy(index, transactions[0]) {
      CreatedKeys(index, transactions[1..], e);
    }
  }

  // Where a listed entry was made: its index gives the position of its block.
  lemma MadeAt(w: World, chain: seq<Block>, e: UnspentOutput) returns (i: nat)
    requires IsValidChain(w, chain) && chain[0].index + |chain| <= TWO_64
    requires e in Replay(w, chain)
    ensures LivesFrom(w, chain, i, e) && e.transactionIndex == chain[0].index + i
  {
    ReplayIsDeclared(w, chain);
    DeclaredMembers(w, chain, e);
    i :| LivesFrom(w, chain, i, e);
    CreatedKeys(chain[i].index, BlockTransactions(w, chain[i]), e);
    IndexIsPosition(w, chain, i);
  }

  lemma ListedBefore(w: World, chain: seq<Block>, n: nat, e: UnspentOutput)
    requires IsValidChain(w, chain) && chain[0].index + |chain| <= TWO_64
    requires e in Replay(w, chain) && n <= |chain| && e.transactionIndex < chain[0].index + n
    ensures e in Replay(w, chain[..n])
  {
    var i := MadeAt(w, chain, e);
    assert chain[..n][i] == chain[i];
    assert LivesFrom(w, chain[..n], i, e);
    DeclaredMembers(w, chain[..n], e);
    ReplayIsDeclared(w, chain[..n]);
  }

  /** Once a block takes a key off the list, no extension of the chain has that key on its list:
      no later block has the index needed to create it again. */
  lemma SpentStaysSpent(w: World, chain: seq<Block>, j: nat, key: Key)
    requires IsValidChain(w, chain) && chain[0].index + |chain| <= TWO_64
    requires j < |chain|
    requires HasKey(Replay(w, chain[..j]), key) && !HasKey(Replay(w, chain[..j + 1]), key)
    ensures !HasKey(Replay(w, chain), key)
  {
    var before :| before in Replay(w, chain[..j]) && KeyOf(before) == key;
    assert j > 0;
    var i := MadeAt(w, chain[..j], before);
    forall e | e in Replay(w, chain)
      ensures KeyOf(e) != key
    {
      if KeyOf(e) == key {
        ListedBefore(w, chain, j + 1, e);
      }
    }
  }

  // Totals and balances

  function Total(unspent: seq<UnspentOutput>): nat {
    if unspent == [] then 0 else unspent[0].amount + Total(unspent[1..])
  }

  function Owned(unspent: seq<UnspentOutput>, address: string): nat {
    if unspent == [] then 0
    else (if unspent[0].address == address then unspent[0].amount else 0) + Owned(unspent[1..], address)
  }

  lemma {:induction false} OwnedAppend(a: seq<UnspentOutput>, b: seq<UnspentOutput>, address: string)
    ensures Owned(a + b, address) == Owned(a, address) + Owned(b, address)
  {
    if a == [] {
      assert a + b == b;
    } else {
      assert (a + b)[1..] == a[1..] + b;
      OwnedAppend(a[1..], b, address);
    }
  }

  lemma {:induction false} TotalAppend(a: seq<UnspentOutput>, b: seq<UnspentOutput>)
    ensures Total(a + b) == Total(a) + Total(b)
  {
    if a == [] {
      assert a + b == b;
    } else {
      assert (a + b)[1..] == a[1..] + b;
      TotalAppend(a[1..], b);
    }
  }

  function SumOwned(unspent: seq<UnspentOutput>, addresses: seq<string>): nat {
    if addresses == [] then 0 else Owned(unspent, addresses[0]) + SumOwned(unspent, addresses[1..])
  }

  ghost predicate Distinct<T(!new)>(s: seq<T>) {
    forall i, j :: 0 <= i < j < |s| ==> s[i] != s[j]
  }

  lemma {:induction false} SumOwnedStep(unspent: seq<UnspentOutput>, addresses: seq<string>)
    requires unspent != [] && Distinct(addresses)
    ensures SumOwned(unspent, addresses)
         == SumOwned(unspent[1..], addresses) + if unspent[0].address in addresses then unspent[0].amount else 0
  {
    if addresses != [] {
      SumOwnedStep(unspent, addresses[1..]);
    }
  }

  /** The balances of all distinct addresses add up to the total of the unspent outputs. */
  lemma {:induction false} BalancesPartitionTotal(unspent: seq<UnspentOutput>, addresses: seq<string>)
    requires Distinct(addresses) && forall e :: e in unspent ==> e.address in addresses
    ensures SumOwned(unspent, addresses) == Total(unspent)
  {
    if unspent == [] {
      NothingOwned(addresses);
    } else {
      SumOwnedStep(unspent, addresses);
      BalancesPartitionTotal(unspent[1..], addresses);
    }
  }

  lemma {:induction false} NothingOwned(addresses: seq<string>)
    ensures SumOwned([], addresses) == 0
  {
    if addresses != [] {
      NothingOwned(addresses[1..]);
    }
  }

  // The history of an address: the transactions with an output to it. Inputs never count.

  predicate Pays(t: Transaction, address: string) {
    exists i :: 0 <= i < |t.outputs| && t.outputs[i].address == address
  }

  function Paying(transactions: seq<Transaction>, address: string): seq<Transaction> {
    if transactions == [] then []
    else (if Pays(transactions[0], address) then [transactions[0]] else []) + Paying(transactions[1..], address)
  }

  function History(w: World, chain: seq<Block>, address: string): seq<Transaction> {
    if chain == [] then []
    else Paying(BlockTransactions(w, chain[0]), address) + History(w, chain[1..], address)
  }

  // The transactions of a chain, block after block.
  function TransactionsOf(w: World, blocks: seq<Block>): seq<Transaction> {
    if blocks == [] then [] else BlockTransactions(w, blocks[0]) + TransactionsOf(w, blocks[1..])
  }

  lemma {:induction false} PayingAppend(a: seq<Transaction>, b: seq<Transaction>, address: string)
    ensures Paying(a + b, address) == Paying(a, address) + Paying(b, address)
  {
    if a == [] {
      assert a + b == b;
    } else {
      assert (a + b)[1..] == a[1..] + b;
      PayingAppend(a[1..], b, address);
      Regroup(if Pays(a[0], address) then [a[0]] else [], Paying(a[1..], address), Paying(b, address));
    }
  }

  lemma {:induction false} HistoryIsPaying(w: World, chain: seq<Block>, address: string)
    ensures History(w, chain, address) == Paying(TransactionsOf(w, chain), address)
  {
    if chain != [] {
      HistoryIsPaying(w, chain[1..], address);
      PayingAppend(BlockTransactions(w, chain[0]), TransactionsOf(w, chain[1..]), address);
    }
  }

  ghost predicate HasOutputTo(t: Transaction, address: string) {
    exists o :: o in t.outputs && o.address == address
  }

  // The selected transactions are those at the positions, in order, and the positions are those of all
  // transactions that have an output to the address.
  ghost predicate SelectsPayees(all: seq<Transaction>, selected: seq<Transaction>, positions: seq<nat>, address: string) {
    && |positions| == |selected|
    && (forall k, l :: 0 <= k < l < |positions| ==> positions[k] < positions[l])
    && (forall k :: 0 <= k < |positions| ==> positions[k] < |all| && selected[k] == all[positions[k]])
    && (forall p :: 0 <= p < |all| ==> (p in positions <==> HasOutputTo(all[p], address)))
  }

  function Shifted(positions: seq<nat>): (r: seq<nat>)
    ensures |r| == |positions|
  {
    seq(|positions|, k requires 0 <= k < |positions| => positions[k] + 1)
  }

  lemma ShiftedMembers(positions: seq<nat>, p: nat)
    ensures p in Shifted(positions) <==> p > 0 && p - 1 in positions
  {
    if p > 0 && p - 1 in positions {
      var k :| 0 <= k < |positions| && positions[k] == p - 1;
      assert Shifted(positions)[k] == p;
    }
  }

  lemma SelectsBehind(t: Transaction, rest: seq<Transaction>, selected: seq<Transaction>, later: seq<nat>, address: string)
    requires SelectsPayees(rest, selected, later, address) && !HasOutputTo(t, address)
    ensures SelectsPayees([t] + rest, selected, Shifted(later), address)
  {
    forall p: nat | p < |[t] + rest|
      ensures p in Shifted(later) <==> HasOutputTo(([t] + rest)[p], address)
    {
      ShiftedMembers(later, p);
    }
  }

  lemma ZeroInFront(later: seq<nat>)
    requires forall k, l :: 0 <= k < l < |later| ==> later[k] < later[l]
    ensures var r := [0] + Shifted(later);
      && r[0] == 0 && (forall k :: 0 < k < |r| ==> r[k] == later[k - 1] + 1)
      && (forall k, l :: 0 <= k < l < |r| ==> r[k] < r[l])
      && (forall p: nat :: p in r <==> p == 0 || p in Shifted(later))
  {
  }

  lemma SelectsInFront(t: Transaction, rest: seq<Transaction>, selected: seq<Transaction>, later: seq<nat>, address: string)
    requires SelectsPayees(rest, selected, later, address) && HasOutputTo(t, address)
    ensures SelectsPayees([t] + rest, [t] + selected, [0] + Shifted(later), address)
  {
    var all := [t] + rest;
    ZeroInFront(later);
    forall p: nat | p < |all|
      ensures p in [0] + Shifted(later) <==> HasOutputTo(all[p], address)
    {
      ShiftedMembers(later, p);
    }
  }

  lemma {:induction false} PayingSelects(all: seq<Transaction>, address: string) returns (positions: seq<nat>)
    ensures SelectsPayees(all, Paying(all, address), positions, address)
  {
    if all == [] {
      positions := [];
    } else {
      var later := PayingSelects(all[1..], address);
      assert Pays(all[0], address) <==> HasOutputTo(all[0], address);
      assert all == [all[0]] + all[1..];
      if Pays(all[0], address) {
        SelectsInFront(all[0], all[1..], Paying(all[1..], address), later, address);
        positions := [0] + Shifted(later);
      } else {
        SelectsBehind(all[0], all[1..], Paying(all[1..], address), later, address);
        positions := Shifted(later);
        assert Paying(all, address) == Paying(all[1..], address);
      }
    }
  }

  /** The reported history consists of exactly the transactions of the chain that have an output to the
      address, each as often as it stands in the chain, in chain order. */
  lemma HistorySelects(w: World, chain: seq<Block>, address: string)
    ensures exists positions ::
      SelectsPayees(TransactionsOf(w, chain), History(w, chain, address), positions, address)
  {
    HistoryIsPaying(w, chain, address);
    var positions := PayingSelects(TransactionsOf(w, chain), address);
  }

  function PaidBy(outputs: seq<Output>, address: string): nat {
    if outputs == [] then 0
    else (if outputs[0].address == address then outputs[0].amount else 0) + PaidBy(outputs[1..], address)
  }

  function PaidByAll(transactions: seq<Transaction>, address: string): nat {
    if transactions == [] then 0
    else PaidBy(transactions[0].outputs, address) + PaidByAll(transactions[1..], address)
  }

  lemma {:induction false} PaidByAllAppend(a: seq<Transaction>, b: seq<Transaction>, address: string)
    ensures PaidByAll(a + b, address) == PaidByAll(a, address) + PaidByAll(b, address)
  {
    if a == [] {
      assert a + b == b;
    } else {
      assert (a + b)[1..] == a[1..] + b;
      PaidByAllAppend(a[1..], b, address);
    }
  }

  lemma {:induction false} OwnedOfCreatedBy(index: u64, t: Transaction, address: string)
    ensures Owned(CreatedBy(index, t), address) == PaidBy(t.outputs, address)
    decreases |t.outputs|
  {
    if t.outputs != [] {
      var tail := t.(outputs := t.outputs[1..]);
      assert CreatedBy(index, t)[1..] == CreatedBy(index, tail);
      OwnedOfCreatedBy(index, tail, address);
    }
  }

  lemma {:induction false} PaysNothing(outputs: seq<Output>, address: string)
    requires forall i :: 0 <= i < |outputs| ==> outputs[i].address != address
    ensures PaidBy(outputs, address) == 0
  {
    if outputs != [] {
      PaysNothing(outputs[1..], address);
    }
  }

  lemma {:induction false} OwnedOfCreated(index: u64, transactions: seq<Transaction>, address: string)
    ensures Owned(Created(index, transactions), address) == PaidByAll(Paying(transactions, address), address)
  {
    if transactions != [] {
      var t := transactions[0];
      OwnedOfCreatedBy(index, t, address);
      OwnedAppend(CreatedBy(index, t), Created(index, transactions[1..]), address);
      OwnedOfCreated(index, transactions[1..], address);
      var own := if Pays(t, address) then [t] else [];
      if !Pays(t, address) {
        PaysNothing(t.outputs, address);
      }
      PaidByAllAppend(own, Paying(transactions[1..], address), address);
    }
  }

  lemma {:induction false} SurvivingOwnsLess(unspent: seq<UnspentOutput>, spent: seq<Key>, address: string)
    ensures Owned(Surviving(unspent, spent), address) <= Owned(unspent, address)
  {
    if unspent != [] {
      SurvivingOwnsLess(unspent[1..], spent, address);
      var own := if KeyOf(unspent[0]) in spent then [] else [unspent[0]];
      OwnedAppend(own, Surviving(unspent[1..], spent), address);
    }
  }

  lemma {:induction false} DeclaredOwnedBound(w: World, chain: seq<Block>, address: string)
    ensures Owned(Declared(w, chain), address) <= PaidByAll(History(w, chain, address), address)
  {
    if chain != [] {
      var created, later := CreatedIn(w, chain[0]), SpentBy(w, chain[1..]);
      SurvivingOwnsLess(created, later, address);
      OwnedOfCreated(chain[0].index, BlockTransactions(w, chain[0]), address);
      OwnedAppend(Surviving(created, later), Declared(w, chain[1..]), address);
      PaidByAllAppend(Paying(BlockTransactions(w, chain[0]), address), History(w, chain[1..], address), address);
      DeclaredOwnedBound(w, chain[1..], address);
    }
  }

  /** A balance is at most what the outputs of the reported history pay to the address. */
  lemma BalanceBoundedByHistory(w: World, chain: seq<Block>, address: string)
    ensures Owned(Replay(w, chain), address) <= PaidByAll(History(w, chain, address), address)
  {
    ReplayIsDeclared(w, chain);
    DeclaredOwnedBound(w, chain, address);
  }

  ghost predicate IsOutputOf(t: Transaction, e: UnspentOutput) {
    t.id == e.transactionId && Output(e.address, e.amount) in t.outputs
  }

  lemma {:induction false} CreatedTracesBack(index: u64, transactions: seq<Transaction>, e: UnspentOutput)
    requires e in Created(index, transactions)
    ensures exists t :: t in Paying(transactions, e.address) && IsOutputOf(t, e)
  {
    var t := transactions[0];
    if e in CreatedBy(index, t) {
      var i :| 0 <= i < |t.outputs| && CreatedBy(index, t)[i] == e;
      assert t.outputs[i] == Output(e.address, e.amount);
      assert t in Paying(transactions, e.address) && IsOutputOf(t, e);
    } else {
      CreatedTracesBack(index, transactions[1..], e);
    }
  }

  lemma {:induction false} DeclaredTracesBack(w: World, chain: seq<Block>, e: UnspentOutput)
    requires e in Declared(w, chain)
    ensures exists t :: t in History(w, chain, e.address) && IsOutputOf(t, e)
  {
    var created := CreatedIn(w, chain[0]);
    if e in Surviving(created, SpentBy(w, chain[1..])) {
      SurvivingMembers(created, SpentBy(w, chain[1..]), e);
      CreatedTracesBack(chain[0].index, BlockTransactions(w, chain[0]), e);
      var t :| t in Paying(BlockTransactions(w, chain[0]), e.address) && IsOutputOf(t, e);
      assert t in History(w, chain, e.address);
    } else {
      DeclaredTracesBack(w, chain[1..], e);
      var t :| t in History(w, chain[1..], e.address) && IsOutputOf(t, e);
      assert t in History(w, chain, e.address);
    }
  }

  /** Every entry on the list is an output of some transaction in the history of its address. */
  lemma EntriesTraceBack(w: World, chain: seq<Block>, e: UnspentOutput)
    requires e in Replay(w, chain)
    ensures exists t :: t in History(w, chain, e.address) && IsOutputOf(t, e)
  {
    ReplayIsDeclared(w, chain);
    DeclaredTracesBack(w, chain, e);
  }
}
