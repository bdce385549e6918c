/** The client's transfer: coin selection, the transaction it builds, and what becomes of it. */
module Client {
  import opened Basics
  import opened Entities
  import opened Environment
  import opened Transactions
  import opened Blocks
  import opened Encodings
  import opened Ledger

  // The entries of one address, in order: what a node answers to the client's query.
  function OwnedEntries(unspent: seq<UnspentOutput>, address: string): seq<UnspentOutput> {
    if unspent == [] then []
    else (if unspent[0].address == address then [unspent[0]] else []) + OwnedEntries(unspent[1..], address)
  }

  lemma {:induction false} OwnedEntriesMembers(unspent: seq<UnspentOutput>, address: string, e: UnspentOutput)
    ensures e in OwnedEntries(unspent, address) <==> e in unspent && e.address == address
  {
    if unspent != [] {
      OwnedEntriesMembers(unspent[1..], address, e);
      assert e in unspent <==> e == unspent[0] || e in unspent[1..];
    }
  }

  lemma {:induction false} OwnedIsTotalOfEntries(unspent: seq<UnspentOutput>, address: string)
    ensures Total(OwnedEntries(unspent, address)) == Owned(unspent, address)
  {
    if unspent != [] {
      OwnedIsTotalOfEntries(unspent[1..], address);
      TotalAppend(if unspent[0].address == address then [unspent[0]] else [], OwnedEntries(unspent[1..], address));
    }
  }

  lemma {:induction false} OwnedEntriesIdempotent(unspent: seq<UnspentOutput>, address: string)
    requires forall e :: e in unspent ==> e.address == address
    ensures OwnedEntries(unspent, address) == unspent
  {
    if unspent != [] {
      OwnedEntriesIdempotent(unspent[1..], address);
    }
  }

  /** k is the length of the shortest non-empty prefix that reaches the amount, or of the whole list
      when none does. */
  ghost predicate IsShortestPrefix(entries: seq<UnspentOutput>, amount: nat, k: nat) {
    && k <= |entries| && (entries != [] ==> k >= 1)
    && (k == |entries| || Total(entries[..k]) >= amount)
    && (forall j :: 1 <= j < k ==> Total(entries[..j]) < amount)
  }

  function PrefixLength(entries: seq<UnspentOutput>, found: nat, amount: nat): (k: nat)
    ensures k <= |entries|
  {
    if entries == [] then 0
    else if found + entries[0].amount >= amount then 1
    else 1 + PrefixLength(entries[1..], found + entries[0].amount, amount)
  }

  lemma {:induction false} PrefixLengthReaches(entries: seq<UnspentOutput>, found: nat, amount: nat)
    ensures var k := PrefixLength(entries, found, amount);
      && (entries != [] ==> k >= 1)
      && (k == |entries| || found + Total(entries[..k]) >= amount)
      && (forall j :: 1 <= j < k ==> found + Total(entries[..j]) < amount)
      && (k >= 1 && found < amount ==> found + Total(entries[..k]) < amount + entries[k - 1].amount)
    decreases entries
  {
    if entries != [] {
      var e, rest := entries[0], entries[1..];
      var k := PrefixLength(entries, found, amount);
      forall j | 1 <= j <= |entries|
        ensures Total(entries[..j]) == e.amount + Total(rest[..j - 1])
      {
        assert entries[..j][1..] == rest[..j - 1];
      }
      assert Total(rest[..0]) == 0;
      if found + e.amount < amount {
        PrefixLengthReaches(rest, found + e.amount, amount);
        forall j | 1 <= j < k
          ensures found + Total(entries[..j]) < amount
        {
          assert j > 1 ==> found + e.amount + Total(rest[..j - 1]) < amount;
        }
      }
    }
  }

  function Chosen(unspent: seq<UnspentOutput>, origin: string, amount: nat): seq<UnspentOutput> {
    var entries := OwnedEntries(unspent, origin);
    entries[..PrefixLength(entries, 0, amount)]
  }

  lemma TotalOfPrefix(entries: seq<UnspentOutput>, k: nat)
    requires k <= |entries|
    ensures Total(entries[..k]) <= Total(entries)
    ensures k == |entries| ==> Total(entries[..k]) == Total(entries)
  {
    TotalAppend(entries[..k], entries[k..]);
    assert entries == entries[..k] + entries[k..];
    if k == |entries| {
      assert entries[..k] == entries;
    }
  }

  /** The chosen entries are the one shortest prefix of the origin's entries that reaches the amount, and
      they reach it exactly when the origin owns enough. */
  lemma ChosenIsShortest(unspent: seq<UnspentOutput>, origin: string, amount: nat)
    ensures Chosen(unspent, origin, amount) <= OwnedEntries(unspent, origin)
    ensures forall k :: IsShortestPrefix(OwnedEntries(unspent, origin), amount, k)
                        <==> k == |Chosen(unspent, origin, amount)|
    ensures Total(Chosen(unspent, origin, amount)) >= amount <==> Owned(unspent, origin) >= amount
  {
    var entries := OwnedEntries(unspent, origin);
    var k := PrefixLength(entries, 0, amount);
    PrefixLengthReaches(entries, 0, amount);
    OwnedIsTotalOfEntries(unspent, origin);
    TotalOfPrefix(entries, k);
  }

  // Selection loop

  function InputsFor(entries: seq<UnspentOutput>): (inputs: seq<Input>)
    ensures |inputs| == |entries|
  {
    seq(|entries|, i requires 0 <= i < |entries| => Input(entries[i].transactionId, entries[i].transactionIndex, ""))
  }

  // What remains of the chosen entries goes back to the origin; it fits, see ChangeFits.
  function Change(chosen: seq<UnspentOutput>, origin: string, amount: nat): seq<Output> {
    var total := Total(chosen);
    if amount < total < amount + TWO_64 then [Output(origin, total - amount)] else []
  }

  lemma ChangeFits(unspent: seq<UnspentOutput>, origin: string, amount: nat)
    ensures Total(Chosen(unspent, origin, amount)) < amount + TWO_64
  {
    var entries := OwnedEntries(unspent, origin);
    PrefixLengthReaches(entries, 0, amount);
    var k := PrefixLength(entries, 0, amount);
    if amount == 0 && entries != [] {
      assert k == 1 && entries[..1] == [entries[0]];
      assert Total([entries[0]]) == entries[0].amount + Total([]);
    }
  }

  function Copies(n: nat, key: string): (keys: seq<string>)
    ensures |keys| == n
  {
    seq(n, i => key)
  }

  // Entries that together stay below the amount all belong to the shortest prefix.
  lemma {:induction false} PrefixLengthBeyond(a: seq<UnspentOutput>, rest: seq<UnspentOutput>, found: nat, amount: nat)
    requires a == [] || found + Total(a) < amount
    ensures PrefixLength(a + rest, found, amount) == |a| + PrefixLength(rest, found + Total(a), amount)
    decreases a
  {
    if a == [] {
      assert a + rest == rest;
    } else {
      assert (a + rest)[1..] == a[1..] + rest;
      PrefixLengthBeyond(a[1..], rest, found + a[0].amount, amount);
    }
  }

  lemma {:induction false} OwnedEntriesAppend(a: seq<UnspentOutput>, b: seq<UnspentOutput>, address: string)
    ensures OwnedEntries(a + b, address) == OwnedEntries(a, address) + OwnedEntries(b, address)
  {
    if a == [] {
      assert a + b == b;
    } else {
      assert (a + b)[1..] == a[1..] + b;
      OwnedEntriesAppend(a[1..], b, address);
    }
  }

  lemma NextEntry(unspent: seq<UnspentOutput>, origin: string, i: nat)
    requires i < |unspent|
    ensures OwnedEntries(unspent[..i + 1], origin)
         == OwnedEntries(unspent[..i], origin) + if unspent[i].address == origin then [unspent[i]] else []
  {
    assert unspent[..i + 1] == unspent[..i] + [unspent[i]];
    OwnedEntriesAppend(unspent[..i], [unspent[i]], origin);
  }

  // The entry at position i completes the amount.
  lemma ChosenUpTo(unspent: seq<UnspentOutput>, origin: string, amount: nat, i: nat)
    requires i < |unspent| && unspent[i].address == origin
    requires var taken := OwnedEntries(unspent[..i], origin);
      (taken == [] || Total(taken) < amount) && Total(taken) + unspent[i].amount >= amount
    ensures Chosen(unspent, origin, amount) == OwnedEntries(unspent[..i + 1], origin)
  {
    var taken, rest := OwnedEntries(unspent[..i], origin), OwnedEntries(unspent[i..], origin);
    assert unspent == unspent[..i] + unspent[i..];
    OwnedEntriesAppend(unspent[..i], unspent[i..], origin);
    PrefixLengthBeyond(taken, rest, 0, amount);
    NextEntry(unspent, origin, i);
    assert rest[0] == unspent[i];
    assert (taken + rest)[..|taken| + 1] == taken + [unspent[i]];
  }

  // No entry completes the amount.
  lemma ChosenAll(unspent: seq<UnspentOutput>, origin: string, amount: nat)
    requires OwnedEntries(unspent, origin) == [] || Total(OwnedEntries(unspent, origin)) < amount
    ensures Chosen(unspent, origin, amount) == OwnedEntries(unspent, origin)
  {
    var entries := OwnedEntries(unspent, origin);
    PrefixLengthBeyond(entries, [], 0, amount);
    assert entries + [] == entries && entries[..|entries|] == entries;
  }

  lemma InputsForAppend(chosen: seq<UnspentOutput>, e: UnspentOutput, key: string)
    ensures InputsFor(chosen + [e]) == InputsFor(chosen) + [Input(e.transactionId, e.transactionIndex, "")]
    ensures Copies(|chosen| + 1, key) == Copies(|chosen|, key) + [key]
  {
  }

  lemma ChangeAmount(chosen: seq<UnspentOutput>, e: UnspentOutput, origin: string, amount: u64, found: u64)
    requires found <= amount <= found + e.amount && Total(chosen) == found + e.amount
    ensures Change(chosen, origin, amount)
         == if found + e.amount > amount then [Output(origin, e.amount - (amount - found))] else []
  {
  }

  method SelectCoins(unspent: seq<UnspentOutput>, origin: string, destination: string, privateKey: string, amount: u64)
    returns (found: u64, inputs: seq<Input>, outputs: seq<Output>, privateKeys: seq<string>)
    ensures found == Min(amount, Total(Chosen(unspent, origin, amount)))
    ensures inputs == InputsFor(Chosen(unspent, origin, amount))
    ensures outputs == [Output(destination, amount)] + Change(Chosen(unspent, origin, amount), origin, amount)
    ensures privateKeys == Copies(|inputs|, privateKey)
  {
    found, inputs, privateKeys := 0, [], [];
    outputs := [Output(destination, amount)];
    ghost var chosen: seq<UnspentOutput> := [];
    for i := 0 to |unspent|
      invariant chosen == OwnedEntries(unspent[..i], origin)
      invariant found == Total(chosen) && (chosen != [] ==> found < amount)
      invariant inputs == InputsFor(chosen) && privateKeys == Copies(|chosen|, privateKey)
      invariant outputs == [Output(destination, amount)]
    {
      var e := unspent[i];
      NextEntry(unspent, origin, i);
      if e.address != origin {
        continue;
      }
      var amountLeft: u64 := amount - found;
      var takenShare: u64 := Min(amountLeft, e.amount);
      var leftShare: u64 := e.amount - takenShare;
      InputsForAppend(chosen, e, privateKey);
      TotalAppend(chosen, [e]);
      inputs := inputs + [Input(e.transactionId, e.transactionIndex, "")];
      privateKeys := privateKeys + [privateKey];
      if takenShare == amountLeft {
        ChosenUpTo(unspent, origin, amount, i);
        ChangeAmount(chosen + [e], e, origin, amount, found);
      }
      found := found + takenShare;
      chosen := chosen + [e];
      if found == amount {
        if leftShare > 0 {
          outputs := outputs + [Output(origin, leftShare)];
        }
        return;
      }
    }
    assert unspent[..|unspent|] == unspent;
    ChosenAll(unspent, origin, amount);
  }

  // The transaction

  // None: insufficient funds. The entries are those the node answered with.
  function Transfer(w: World, unspent: seq<UnspentOutput>, origin: string, destination: string,
                    privateKey: string, amount: u64): Option<Transaction> {
    var chosen := Chosen(unspent, origin, amount);
    if Total(chosen) < amount then None
    else CreatedTransaction(w, InputsFor(chosen), [Output(destination, amount)] + Change(chosen, origin, amount),
                            Copies(|chosen|, privateKey), unspent)
  }

  method SubmitTransaction(w: World, unspent: seq<UnspentOutput>, origin: string, destination: string,
                           privateKey: string, amount: u64) returns (r: Option<Transaction>)
    ensures r == Transfer(w, unspent, origin, destination, privateKey, amount)
  {
    var found, inputs, outputs, privateKeys := SelectCoins(unspent, origin, destination, privateKey, amount);
    if found < amount {
      return None;
    }
    r := CreateTransaction(w, inputs, outputs, privateKeys, unspent);
  }

  lemma ChosenMembers(unspent: seq<UnspentOutput>, origin: string, amount: nat, e: UnspentOutput)
    requires e in Chosen(unspent, origin, amount)
    ensures e in unspent && e.address == origin
  {
    OwnedEntriesMembers(unspent, origin, e);
  }

  // What the client sends: its choice, signed by its own key.
  lemma TransferShape(w: World, unspent: seq<UnspentOutput>, origin: string, destination: string,
                      privateKey: string, amount: u64)
    requires Owned(unspent, origin) >= amount
    ensures var t := Transfer(w, unspent, origin, destination, privateKey, amount);
            var chosen := Chosen(unspent, origin, amount);
      && t.Some? && References(t.value.inputs) == References(InputsFor(chosen))
      && t.value.outputs == [Output(destination, amount)] + Change(chosen, origin, amount)
      && t.value.id == TransactionId(w, t.value.inputs, t.value.outputs)
      && |t.value.inputs| == |chosen|
      && forall i :: 0 <= i < |chosen| ==> t.value.inputs[i].signature == w.sign(t.value.id, privateKey)
  {
    var chosen := Chosen(unspent, origin, amount);
    ChosenIsShortest(unspent, origin, amount);
    var inputs := InputsFor(chosen);
    forall i | 0 <= i < |inputs|
      ensures FirstWithKey(Reference(inputs[i]), unspent).Some?
    {
      ChosenMembers(unspent, origin, amount, chosen[i]);
      assert KeyOf(chosen[i]) == Reference(inputs[i]);
    }
    CreatedTransactionKeepsId(w, inputs, [Output(destination, amount)] + Change(chosen, origin, amount),
      Copies(|chosen|, privateKey), unspent);
  }

  /** The client finds the funds exactly when the origin's balance covers the amount, and then its
      outputs sum to what it takes: the amount and the change. */
  lemma TransferSucceedsExactly(w: World, unspent: seq<UnspentOutput>, origin: string, destination: string,
                                privateKey: string, amount: u64)
    ensures var t := Transfer(w, unspent, origin, destination, privateKey, amount);
      && (t.Some? <==> Owned(unspent, origin) >= amount)
      && (t.Some? ==> Sum(OutputAmounts(t.value.outputs)) == Total(Chosen(unspent, origin, amount)))
  {
    ChosenIsShortest(unspent, origin, amount);
    if Owned(unspent, origin) >= amount {
      TransferShape(w, unspent, origin, destination, privateKey, amount);
      OutputsSumToChosen(unspent, origin, destination, amount);
    }
  }

  lemma OutputsSumToChosen(unspent: seq<UnspentOutput>, origin: string, destination: string, amount: u64)
    requires Owned(unspent, origin) >= amount
    ensures var chosen := Chosen(unspent, origin, amount);
      Sum(OutputAmounts([Output(destination, amount)] + Change(chosen, origin, amount))) == Total(chosen)
  {
    var chosen := Chosen(unspent, origin, amount);
    ChosenIsShortest(unspent, origin, amount);
    ChangeFits(unspent, origin, amount);
    var change := Change(chosen, origin, amount);
    SumAppend([amount], OutputAmounts(change));
    assert OutputAmounts([Output(destination, amount)] + change) == [amount] + OutputAmounts(change);
    assert Sum([amount]) == amount;
    assert change != [] ==> OutputAmounts(change) == [change[0].amount] && Sum([change[0].amount]) == change[0].amount;
  }

  // Acceptance by the node

  // Signatures made with the private key verify for the origin's address and for no other.
  ghost predicate KeyPair(w: World, privateKey: string, origin: string) {
    forall data, address :: w.verify(data, w.sign(data, privateKey), address) <==> address == origin
  }

  // The first entry with the id is one of the address.
  predicate FirstBelongsTo(id: string, unspent: seq<UnspentOutput>, address: string) {
    match FirstWithId(id, unspent)
    case None => false
    case Some(entry) => entry.address == address
  }

  function FirstAmounts(entries: seq<UnspentOutput>, unspent: seq<UnspentOutput>): seq<u64> {
    ReferencedAmounts(InputsFor(entries), unspent)
  }

  lemma ReferencedAmountsByReference(a: seq<Input>, b: seq<Input>, unspent: seq<UnspentOutput>)
    requires References(a) == References(b)
    ensures ReferencedAmounts(a, unspent) == ReferencedAmounts(b, unspent)
  {
    assert |References(a)| == |a| && |References(b)| == |b|;
    forall i | 0 <= i < |a|
      ensures ReferencedAmount(a[i], unspent) == ReferencedAmount(b[i], unspent)
    {
      assert References(a)[i] == References(b)[i];
    }
  }

  /** When the node holding the whole list accepts the client's transaction: exactly when each chosen
      entry's id first occurs on an entry of the origin, and those first entries bring, modulo 2^32,
      what the chosen ones do. */
  lemma TransferAcceptedExactly(w: World, unspent: seq<UnspentOutput>, origin: string, destination: string,
                                privateKey: string, amount: u64)
    requires KeyPair(w, privateKey, origin) && Owned(unspent, origin) >= amount
    ensures var entries := OwnedEntries(unspent, origin);
            var chosen := Chosen(entries, origin, amount);
            var t := Transfer(w, entries, origin, destination, privateKey, amount);
      t.Some? && (IsTransactionValid(w, t.value, unspent) <==>
        && (forall e :: e in chosen ==> FirstBelongsTo(e.transactionId, unspent, origin))
        && Sum(FirstAmounts(chosen, unspent)) % TWO_32 == Total(chosen) % TWO_32)
  {
    var entries := OwnedEntries(unspent, origin);
    var chosen := Chosen(entries, origin, amount);
    OwnedOfOwnedEntries(unspent, origin);
    TransferShape(w, entries, origin, destination, privateKey, amount);
    OutputsSumToChosen(entries, origin, destination, amount);
    var t := Transfer(w, entries, origin, destination, privateKey, amount).value;
    ValidMeansBalancedModulo32(w, t, unspent);
    ReferencedAmountsByReference(t.inputs, InputsFor(chosen), unspent);
    assert |t.inputs| == |References(t.inputs)| == |chosen|;
    forall i | 0 <= i < |chosen|
      ensures IsInputValid(w, t.inputs[i], t.id, unspent) <==>
        FirstBelongsTo(chosen[i].transactionId, unspent, origin)
    {
      assert References(t.inputs)[i] == References(InputsFor(chosen))[i];
    }
  }

  lemma OwnedOfOwnedEntries(unspent: seq<UnspentOutput>, origin: string)
    ensures Owned(OwnedEntries(unspent, origin), origin) == Owned(unspent, origin)
    ensures OwnedEntries(OwnedEntries(unspent, origin), origin) == OwnedEntries(unspent, origin)
  {
    forall e | e in OwnedEntries(unspent, origin)
      ensures e.address == origin
    {
      OwnedEntriesMembers(unspent, origin, e);
    }
    OwnedEntriesIdempotent(OwnedEntries(unspent, origin), origin);
    OwnedIsTotalOfEntries(OwnedEntries(unspent, origin), origin);
    OwnedIsTotalOfEntries(unspent, origin);
  }

  // What a block with the transaction does to the balances

  ghost predicate DistinctTransactions(unspent: seq<UnspentOutput>) {
    forall i, j :: 0 <= i < j < |unspent| ==> unspent[i].transactionId != unspent[j].transactionId
  }

  lemma {:induction false} FirstIsTheEntry(unspent: seq<UnspentOutput>, e: UnspentOutput)
    requires DistinctTransactions(unspent) && e in unspent
    ensures FirstWithId(e.transactionId, unspent) == Some(e)
  {
    if unspent[0] != e {
      var i :| 0 <= i < |unspent| && unspent[i] == e;
      assert unspent[1..][i - 1] == e;
      FirstIsTheEntry(unspent[1..], e);
    }
  }

  // Spending the keys of a prefix of one address's entries takes exactly those entries away.
  lemma {:induction false} SpendingChosen(unspent: seq<UnspentOutput>, origin: string, k: nat,
                                          spent: seq<Key>, address: string)
    requires DistinctTransactions(unspent) && k <= |OwnedEntries(unspent, origin)|
    requires forall e :: e in unspent ==> (KeyOf(e) in spent <==> e in OwnedEntries(unspent, origin)[..k])
    ensures Owned(Surviving(unspent, spent), address)
         == Owned(unspent, address) - Owned(OwnedEntries(unspent, origin)[..k], address)
  {
    if unspent != [] {
      var e, rest := unspent[0], unspent[1..];
      var entries, later := OwnedEntries(unspent, origin), OwnedEntries(rest, origin);
      var taken := e.address == origin && k > 0;
      var l := if taken then k - 1 else k;
      assert forall i :: 0 <= i < |rest| ==> rest[i] == unspent[i + 1];
      assert e !in later by {
        OwnedEntriesMembers(rest, origin, e);
      }
      if taken {
        assert entries[..k] == [e] + later[..l];
      } else if e.address == origin {
        assert entries[..k] == [] == later[..l];
      } else {
        assert entries == later;
      }
      assert forall f :: f in entries[..k] <==> f in later[..l] || (taken && f == e);
      assert KeyOf(e) in spent <==> taken;
      forall f | f in rest
        ensures KeyOf(f) in spent <==> f in later[..l]
      {
        assert f in unspent && f != e;
      }
      SpendingChosen(rest, origin, l, spent, address);
      OwnedAppend(if taken then [] else [e], Surviving(rest, spent), address);
      OwnedAppend(if taken then [e] else [], later[..l], address);
    }
  }

  lemma TransferSpends(w: World, unspent: seq<UnspentOutput>, n: u64, origin: string, destination: string,
                       privateKey: string, amount: u64, coinbase: Key, e: UnspentOutput)
    requires DistinctTransactions(unspent) && Owned(unspent, origin) >= amount
    requires coinbase.1 == n && (forall f :: f in unspent ==> f.transactionIndex < n) && e in unspent
    ensures var entries := OwnedEntries(unspent, origin);
            var chosen := Chosen(entries, origin, amount);
      KeyOf(e) in [coinbase] + References(InputsFor(chosen)) <==> e in chosen
  {
    var chosen := Chosen(OwnedEntries(unspent, origin), origin, amount);
    var keys := References(InputsFor(chosen));
    assert forall i :: 0 <= i < |chosen| ==> keys[i] == KeyOf(chosen[i]);
    if e in chosen {
      var i :| 0 <= i < |chosen| && chosen[i] == e;
      assert keys[i] == KeyOf(e);
    }
    if KeyOf(e) in keys {
      var i :| 0 <= i < |keys| && keys[i] == KeyOf(e);
      ChosenMembers(OwnedEntries(unspent, origin), origin, amount, chosen[i]);
      OwnedEntriesMembers(unspent, origin, chosen[i]);
      FirstIsTheEntry(unspent, e);
      FirstIsTheEntry(unspent, chosen[i]);
    }
  }

  lemma {:induction false} OwnedByOther(entries: seq<UnspentOutput>, origin: string, address: string)
    requires forall e :: e in entries ==> e.address == origin
    ensures Owned(entries, address) == if address == origin then Total(entries) else 0
  {
    if entries != [] {
      OwnedByOther(entries[1..], origin, address);
    }
  }

  function AmountIf(condition: bool, amount: nat): nat {
    if condition then amount else 0
  }

  lemma PairOfTransactions(n: u64, a: Transaction, b: Transaction)
    ensures Created(n, [a, b]) == CreatedBy(n, a) + CreatedBy(n, b)
    ensures Spent([a, b]) == References(a.inputs) + References(b.inputs)
  {
    assert [a, b][1..] == [b] && [b][1..] == [];
    assert Created(n, [b]) == CreatedBy(n, b) + [] == CreatedBy(n, b);
    assert Spent([b]) == References(b.inputs) + [] == References(b.inputs);
  }

  // What the block's two transactions pay to an address.
  lemma TransferPays(w: World, n: u64, origin: string, destination: string, miner: string, amount: u64,
                     chosen: seq<UnspentOutput>, t: Transaction, address: string)
    requires amount <= Total(chosen) < amount + TWO_64
    requires t.outputs == [Output(destination, amount)] + Change(chosen, origin, amount)
    ensures Owned(Created(n, [CoinbaseTransaction(w, n, miner), t]), address)
         == AmountIf(address == miner, COINBASE_AMOUNT) + AmountIf(address == destination, amount)
            + AmountIf(address == origin, Total(chosen) - amount)
  {
    var coinbase, change := CoinbaseTransaction(w, n, miner), Change(chosen, origin, amount);
    var made, paid := CreatedBy(n, coinbase), CreatedBy(n, t);
    PairOfTransactions(n, coinbase, t);
    OwnedAppend(made, paid, address);
    OwnedOfCreatedBy(n, coinbase, address);
    OwnedOfCreatedBy(n, t, address);
    assert coinbase.outputs[1..] == [];
    assert t.outputs[1..] == change;
    assert change != [] ==> change[1..] == [];
  }

  /** End to end: with pairwise distinct transaction ids and indices below n, the transaction the
      client builds is accepted, and block n = [coinbase, transaction] moves exactly the amount from
      the origin to the destination, mints 50 for the miner and leaves all else alone. */
  lemma TransferEndToEnd(w: World, unspent: seq<UnspentOutput>, n: u64, origin: string, destination: string,
                         miner: string, privateKey: string, amount: u64, address: string)
    requires SignsFor(w, privateKey, origin) && DistinctTransactions(unspent)
    requires (forall e :: e in unspent ==> e.transactionIndex < n) && Owned(unspent, origin) >= amount
    ensures var t := Transfer(w, OwnedEntries(unspent, origin), origin, destination, privateKey, amount);
      && t.Some? && IsTransactionValid(w, t.value, unspent)
      && Owned(Updated(n, [CoinbaseTransaction(w, n, miner), t.value], unspent), address)
           + AmountIf(address == origin, amount)
         == Owned(unspent, address) + AmountIf(address == destination, amount) + AmountIf(address == miner, COINBASE_AMOUNT)
  {
    var entries := OwnedEntries(unspent, origin);
    var chosen := Chosen(entries, origin, amount);
    OwnedOfOwnedEntries(unspent, origin);
    TransferShape(w, entries, origin, destination, privateKey, amount);
    TransferIsValid(w, unspent, origin, destination, privateKey, amount);
    var t := Transfer(w, entries, origin, destination, privateKey, amount).value;
    var coinbase := CoinbaseTransaction(w, n, miner);
    PairOfTransactions(n, coinbase, t);
    assert References(coinbase.inputs) == [("", n)];
    TransferTakes(w, unspent, n, origin, destination, privateKey, amount, ("", n), address);
    TransferPays(w, n, origin, destination, miner, amount, chosen, t, address);
    OwnedAppend(Surviving(unspent, Spent([coinbase, t])), Created(n, [coinbase, t]), address);
  }

  // What the block's inputs take away from an address.
  lemma TransferTakes(w: World, unspent: seq<UnspentOutput>, n: u64, origin: string, destination: string,
                      privateKey: string, amount: u64, coinbase: Key, address: string)
    requires DistinctTransactions(unspent) && Owned(unspent, origin) >= amount
    requires coinbase.1 == n && forall e :: e in unspent ==> e.transactionIndex < n
    ensures var chosen := Chosen(OwnedEntries(unspent, origin), origin, amount);
      && amount <= Total(chosen) < amount + TWO_64
      && Owned(Surviving(unspent, [coinbase] + References(InputsFor(chosen))), address)
         + AmountIf(address == origin, Total(chosen)) == Owned(unspent, address)
  {
    var entries := OwnedEntries(unspent, origin);
    var chosen := Chosen(entries, origin, amount);
    var spent := [coinbase] + References(InputsFor(chosen));
    OwnedOfOwnedEntries(unspent, origin);
    ChosenIsShortest(entries, origin, amount);
    ChangeFits(entries, origin, amount);
    assert chosen == entries[..|chosen|];
    forall e | e in unspent
      ensures KeyOf(e) in spent <==> e in chosen
    {
      TransferSpends(w, unspent, n, origin, destination, privateKey, amount, coinbase, e);
    }
    SpendingChosen(unspent, origin, |chosen|, spent, address);
    forall e | e in chosen
      ensures e.address == origin
    {
      ChosenMembers(entries, origin, amount, e);
    }
    OwnedByOther(chosen, origin, address);
  }

  lemma TransferIsValid(w: World, unspent: seq<UnspentOutput>, origin: string, destination: string,
                        privateKey: string, amount: u64)
    requires SignsFor(w, privateKey, origin) && DistinctTransactions(unspent) && Owned(unspent, origin) >= amount
    ensures var t := Transfer(w, OwnedEntries(unspent, origin), origin, destination, privateKey, amount);
      t.Some? && IsTransactionValid(w, t.value, unspent)
  {
    var entries := OwnedEntries(unspent, origin);
    var chosen := Chosen(entries, origin, amount);
    OwnedOfOwnedEntries(unspent, origin);
    TransferShape(w, entries, origin, destination, privateKey, amount);
    OutputsSumToChosen(entries, origin, destination, amount);
    var t := Transfer(w, entries, origin, destination, privateKey, amount).value;
    forall e | e in chosen
      ensures FirstWithId(e.transactionId, unspent) == Some(e) && e.address == origin
    {
      ChosenMembers(entries, origin, amount, e);
      OwnedEntriesMembers(unspent, origin, e);
      FirstIsTheEntry(unspent, e);
    }
    SignedInputsAreValid(w, t, chosen, unspent, privateKey, origin);
    ValidMeansBalancedModulo32(w, t, unspent);
  }

  lemma SignedInputsAreValid(w: World, t: Transaction, chosen: seq<UnspentOutput>, unspent: seq<UnspentOutput>,
                             privateKey: string, origin: string)
    requires SignsFor(w, privateKey, origin) && References(t.inputs) == References(InputsFor(chosen))
    requires forall i :: 0 <= i < |t.inputs| ==> t.inputs[i].signature == w.sign(t.id, privateKey)
    requires forall e :: e in chosen ==> FirstWithId(e.transactionId, unspent) == Some(e) && e.address == origin
    ensures forall i :: 0 <= i < |t.inputs| ==> IsInputValid(w, t.inputs[i], t.id, unspent)
    ensures Sum(ReferencedAmounts(t.inputs, unspent)) == Total(chosen)
  {
    assert |t.inputs| == |References(t.inputs)| == |chosen|;
    forall i | 0 <= i < |chosen|
      ensures FirstWithId(t.inputs[i].transactionOutputId, unspent) == Some(chosen[i])
    {
      assert References(t.inputs)[i] == References(InputsFor(chosen))[i];
      assert chosen[i] in chosen;
    }
    SumOfAmounts(chosen, ReferencedAmounts(t.inputs, unspent));
  }

  lemma {:induction false} SumOfAmounts(entries: seq<UnspentOutput>, amounts: seq<u64>)
    requires |amounts| == |entries| && forall i :: 0 <= i < |entries| ==> amounts[i] == entries[i].amount
    ensures Sum(amounts) == Total(entries)
  {
    if entries != [] {
      SumOfAmounts(entries[1..], amounts[1..]);
    }
  }

  // Change behind its payment

  // Every transaction of the chain with the id has a first output, and it goes to the address.
  ghost predicate FirstPaysTo(w: World, chain: seq<Block>, id: string, payee: string) {
    forall i, t :: 0 <= i < |chain| && t in BlockTransactions(w, chain[i]) && t.id == id ==>
      t.outputs != [] && t.outputs[0].address == payee
  }

  // If the id is listed at all, its first entry is the payee's.
  predicate PayeeFirst(id: string, unspent: seq<UnspentOutput>, payee: string) {
    var first := FirstWithId(id, unspent);
    first.Some? ==> first.value.address == payee
  }

  lemma {:induction false} FirstWithIdAppend(id: string, a: seq<UnspentOutput>, b: seq<UnspentOutput>)
    ensures FirstWithId(id, a + b)
         == if FirstWithId(id, a).Some? then FirstWithId(id, a) else FirstWithId(id, b)
  {
    if a == [] {
      assert a + b == b;
    } else {
      assert (a + b)[1..] == a[1..] + b;
      FirstWithIdAppend(id, a[1..], b);
    }
  }

  // The outputs of one transaction have one key, so they stay or go together.
  lemma {:induction false} OneKeyOneFate(entries: seq<UnspentOutput>, key: Key, spent: seq<Key>)
    requires forall e :: e in entries ==> KeyOf(e) == key
    ensures Surviving(entries, spent) == if key in spent then [] else entries
  {
    if entries != [] {
      OneKeyOneFate(entries[1..], key, spent);
    }
  }

  lemma {:induction false} CreatedPayeeFirst(index: u64, transactions: seq<Transaction>, spent: seq<Key>,
                                            id: string, payee: string)
    requires forall t :: t in transactions && t.id == id ==> t.outputs != [] && t.outputs[0].address == payee
    ensures PayeeFirst(id, Surviving(Created(index, transactions), spent), payee)
  {
    if transactions != [] {
      var t, rest := transactions[0], transactions[1..];
      var created, later := CreatedBy(index, t), Created(index, rest);
      CreatedPayeeFirst(index, rest, spent, id, payee);
      OneKeyOneFate(created, (t.id, index), spent);
      SurvivingAppend(created, later, spent);
      FirstWithIdAppend(id, Surviving(created, spent), Surviving(later, spent));
    }
  }

  lemma {:induction false} DeclaredPayeeFirst(w: World, chain: seq<Block>, id: string, payee: string)
    requires FirstPaysTo(w, chain, id, payee)
    ensures PayeeFirst(id, Declared(w, chain), payee)
  {
    if chain != [] {
      assert forall i :: 0 <= i < |chain| - 1 ==> chain[1..][i] == chain[i + 1];
      DeclaredPayeeFirst(w, chain[1..], id, payee);
      CreatedPayeeFirst(chain[0].index, BlockTransactions(w, chain[0]), SpentBy(w, chain[1..]), id, payee);
      FirstWithIdAppend(id, Surviving(CreatedIn(w, chain[0]), SpentBy(w, chain[1..])), Declared(w, chain[1..]));
    }
  }

  /** Only the payee of its first output can ever spend what a transaction pays: on the list of any chain,
      a valid transaction that names its id is signed, at that input, for the payee. */
  lemma OnlyFirstPayeeSpends(w: World, chain: seq<Block>, id: string, payee: string, t: Transaction, i: nat)
    requires FirstPaysTo(w, chain, id, payee)
    requires IsTransactionValid(w, t, Replay(w, chain)) && i < |t.inputs| && t.inputs[i].transactionOutputId == id
    ensures w.verify(t.id, t.inputs[i].signature, payee)
  {
    ReplayIsDeclared(w, chain);
    DeclaredPayeeFirst(w, chain, id, payee);
  }

  /** So the client, which puts the change behind the payment, can never spend the change of a payment to
      somebody else: whenever it chooses such an entry the node refuses its transaction, although the
      balance suffices. */
  lemma ChangeIsNeverSpent(w: World, chain: seq<Block>, change: UnspentOutput, payee: string,
                           origin: string, destination: string, privateKey: string, amount: u64)
    requires FirstPaysTo(w, chain, change.transactionId, payee) && payee != origin && KeyPair(w, privateKey, origin)
    requires Owned(Replay(w, chain), origin) >= amount
    requires change in Chosen(OwnedEntries(Replay(w, chain), origin), origin, amount)
    ensures var unspent := Replay(w, chain);
            var t := Transfer(w, OwnedEntries(unspent, origin), origin, destination, privateKey, amount);
      t.Some? && !IsTransactionValid(w, t.value, unspent)
  {
    ReplayIsDeclared(w, chain);
    DeclaredPayeeFirst(w, chain, change.transactionId, payee);
    TransferAcceptedExactly(w, Replay(w, chain), origin, destination, privateKey, amount);
  }

  // Entries that together reach the amount contain the shortest prefix.
  lemma {:induction false} PrefixLengthWithin(a: seq<UnspentOutput>, rest: seq<UnspentOutput>, found: nat, amount: nat)
    requires a != [] && found + Total(a) >= amount
    ensures PrefixLength(a + rest, found, amount) == PrefixLength(a, found, amount)
    decreases a
  {
    assert (a + rest)[1..] == a[1..] + rest;
    if found + a[0].amount < amount {
      PrefixLengthWithin(a[1..], rest, found + a[0].amount, amount);
    }
  }

  // An entry at the end is chosen exactly when those before it do not do.
  lemma LastEntryChosen(front: seq<UnspentOutput>, last: UnspentOutput, origin: string, amount: nat)
    requires last.address == origin
    ensures var before := OwnedEntries(front, origin);
            var chosen := Chosen(front + [last], origin, amount);
      if before != [] && Total(before) >= amount then chosen == Chosen(front, origin, amount) && chosen <= before
      else chosen == before + [last]
  {
    var before := OwnedEntries(front, origin);
    OwnedEntriesAppend(front, [last], origin);
    assert OwnedEntries([last], origin) == [last];
    if before != [] && Total(before) >= amount {
      PrefixLengthWithin(before, [last], 0, amount);
    } else {
      PrefixLengthBeyond(before, [last], 0, amount);
      assert (before + [last])[..|before| + 1] == before + [last];
    }
  }

  // The list after a payment that left change: the change comes last, right behind the payment.
  ghost predicate EndsWithChange(front: seq<UnspentOutput>, change: UnspentOutput) {
    && DistinctTransactions(front) && front != []
    && Last(front).transactionId == change.transactionId && Last(front).address != change.address
  }

  lemma FirstBeforeChange(front: seq<UnspentOutput>, change: UnspentOutput, e: UnspentOutput)
    requires EndsWithChange(front, change)
    ensures e in front ==> FirstWithId(e.transactionId, front + [change]) == Some(e)
    ensures FirstWithId(change.transactionId, front + [change]) == Some(Last(front))
  {
    FirstIsTheEntry(front, Last(front));
    FirstWithIdAppend(change.transactionId, front, [change]);
    FirstWithIdAppend(e.transactionId, front, [change]);
    if e in front {
      FirstIsTheEntry(front, e);
    }
  }

  lemma AmountsBeforeChange(front: seq<UnspentOutput>, change: UnspentOutput, chosen: seq<UnspentOutput>)
    requires EndsWithChange(front, change) && forall e :: e in chosen ==> e in front
    ensures Sum(FirstAmounts(chosen, front + [change])) == Total(chosen)
  {
    var amounts := FirstAmounts(chosen, front + [change]);
    forall i | 0 <= i < |chosen|
      ensures amounts[i] == chosen[i].amount
    {
      assert chosen[i] in front;
      FirstBeforeChange(front, change, chosen[i]);
    }
    SumOfAmounts(chosen, amounts);
  }

  lemma TransferBesideChange(w: World, front: seq<UnspentOutput>, change: UnspentOutput, destination: string,
                             privateKey: string, amount: u64)
    requires EndsWithChange(front, change) && KeyPair(w, privateKey, change.address)
    requires Owned(front + [change], change.address) >= amount
    ensures var unspent, origin := front + [change], change.address;
            var t := Transfer(w, OwnedEntries(unspent, origin), origin, destination, privateKey, amount);
      t.Some? && (IsTransactionValid(w, t.value, unspent) <==>
        OwnedEntries(front, origin) != [] && Owned(front, origin) >= amount)
  {
    var unspent, origin := front + [change], change.address;
    var before, chosen := OwnedEntries(front, origin), Chosen(unspent, origin, amount);
    OwnedOfOwnedEntries(unspent, origin);
    assert Chosen(OwnedEntries(unspent, origin), origin, amount) == chosen;
    TransferAcceptedExactly(w, unspent, origin, destination, privateKey, amount);
    LastEntryChosen(front, change, origin, amount);
    OwnedIsTotalOfEntries(front, origin);
    FirstBeforeChange(front, change, change);
    if before != [] && Total(before) >= amount {
      forall e | e in chosen
        ensures e in front && FirstBelongsTo(e.transactionId, unspent, origin)
      {
        assert e in before;
        OwnedEntriesMembers(front, origin, e);
        FirstBeforeChange(front, change, e);
      }
      AmountsBeforeChange(front, change, chosen);
    } else {
      assert change in chosen;
    }
  }

  /** The list after block n = [coinbase, transfer], without the change that the transfer leaves at its end. */
  function WithoutChange(w: World, unspent: seq<UnspentOutput>, n: u64, miner: string, t: Transaction): seq<UnspentOutput>
    requires t.outputs != []
  {
    var coinbase := CoinbaseTransaction(w, n, miner);
    Surviving(unspent, Spent([coinbase, t])) + CreatedBy(n, coinbase)
    + [UnspentOutput(t.id, n, t.outputs[0].address, t.outputs[0].amount)]
  }

  lemma UpdatedEndsWithChange(w: World, unspent: seq<UnspentOutput>, n: u64, miner: string, t: Transaction)
    requires |t.outputs| == 2
    ensures Updated(n, [CoinbaseTransaction(w, n, miner), t], unspent)
         == WithoutChange(w, unspent, n, miner, t) + [UnspentOutput(t.id, n, t.outputs[1].address, t.outputs[1].amount)]
  {
    var coinbase := CoinbaseTransaction(w, n, miner);
    PairOfTransactions(n, coinbase, t);
    var payment := UnspentOutput(t.id, n, t.outputs[0].address, t.outputs[0].amount);
    var change := UnspentOutput(t.id, n, t.outputs[1].address, t.outputs[1].amount);
    assert CreatedBy(n, t) == [payment] + [change];
    var kept := Surviving(unspent, Spent([coinbase, t]));
    assert kept + (CreatedBy(n, coinbase) + ([payment] + [change])) == kept + CreatedBy(n, coinbase) + [payment] + [change];
  }

  // The client's transaction for what a node with this list answers.
  ghost predicate IsTransfer(w: World, unspent: seq<UnspentOutput>, origin: string, destination: string,
                             privateKey: string, amount: u64, t: Transaction) {
    Transfer(w, OwnedEntries(unspent, origin), origin, destination, privateKey, amount) == Some(t)
  }

  // A transfer that takes more than it pays has the change as its second output.
  lemma ChangeOutput(w: World, unspent: seq<UnspentOutput>, origin: string, destination: string,
                     privateKey: string, amount: u64, t: Transaction)
    requires IsTransfer(w, unspent, origin, destination, privateKey, amount, t)
    requires Total(Chosen(OwnedEntries(unspent, origin), origin, amount)) > amount
    ensures |t.outputs| == 2 && t.outputs[0] == Output(destination, amount) && t.outputs[1].address == origin
    ensures t.outputs[1].amount == Total(Chosen(OwnedEntries(unspent, origin), origin, amount)) - amount
    ensures References(t.inputs) == References(InputsFor(Chosen(OwnedEntries(unspent, origin), origin, amount)))
  {
    var entries := OwnedEntries(unspent, origin);
    TransferSucceedsExactly(w, entries, origin, destination, privateKey, amount);
    TransferShape(w, entries, origin, destination, privateKey, amount);
    ChangeFits(entries, origin, amount);
  }

  /** The transfer that follows one with change to somebody else: although the change counts in the balance,
      the node accepts it exactly when the other entries of the origin, at least one, cover it. */
  lemma NextTransferAcceptedExactly(w: World, unspent: seq<UnspentOutput>, n: u64, origin: string, destination: string,
                                    miner: string, privateKey: string, amount: u64, t: Transaction,
                                    payee: string, next: u64)
    requires KeyPair(w, privateKey, origin) && destination != origin
    requires IsTransfer(w, unspent, origin, destination, privateKey, amount, t)
    requires Total(Chosen(OwnedEntries(unspent, origin), origin, amount)) > amount
    requires t.outputs != [] && DistinctTransactions(WithoutChange(w, unspent, n, miner, t))
    requires Owned(Updated(n, [CoinbaseTransaction(w, n, miner), t], unspent), origin) >= next
    ensures var others, after := WithoutChange(w, unspent, n, miner, t),
                                 Updated(n, [CoinbaseTransaction(w, n, miner), t], unspent);
            var u := Transfer(w, OwnedEntries(after, origin), origin, payee, privateKey, next);
      u.Some? && (IsTransactionValid(w, u.value, after) <==>
        OwnedEntries(others, origin) != [] && Owned(others, origin) >= next)
  {
    ChangeOutput(w, unspent, origin, destination, privateKey, amount, t);
    UpdatedEndsWithChange(w, unspent, n, miner, t);
    var change := UnspentOutput(t.id, n, origin, t.outputs[1].amount);
    TransferBesideChange(w, WithoutChange(w, unspent, n, miner, t), change, payee, privateKey, next);
  }

  /** A case: an owner of a single entry pays less than it holds to somebody else. The change is its whole
      balance then, and no part of it can be sent. */
  lemma ChangeBehindPaymentIsRefused(w: World, e: UnspentOutput, n: u64, destination: string, miner: string,
                                     privateKey: string, amount: u64, t: Transaction, payee: string, next: u64)
    requires KeyPair(w, privateKey, e.address) && destination != e.address && miner != e.address
    requires e.amount >= amount + next && e.amount > amount
    requires IsTransfer(w, [e], e.address, destination, privateKey, amount, t)
    requires t.id != CoinbaseTransaction(w, n, miner).id
    ensures var after := Updated(n, [CoinbaseTransaction(w, n, miner), t], [e]);
            var u := Transfer(w, OwnedEntries(after, e.address), e.address, payee, privateKey, next);
      && Owned(after, e.address) == e.amount - amount >= next
      && u.Some? && !IsTransactionValid(w, u.value, after)
  {
    var origin := e.address;
    assert [e][1..] == [] && [e][..1] == [e];
    assert OwnedEntries([e], origin) == [e];
    PrefixLengthReaches([e], 0, amount);
    assert Chosen([e], origin, amount) == [e] && Total([e]) == e.amount;
    ChangeOutput(w, [e], origin, destination, privateKey, amount, t);
    SingleEntryTransfer(w, e, n, destination, miner, t);
    NextTransferAcceptedExactly(w, [e], n, origin, destination, miner, privateKey, amount, t, payee, next);
  }

  lemma SingleEntryTransfer(w: World, e: UnspentOutput, n: u64, destination: string, miner: string, t: Transaction)
    requires References(t.inputs) == References(InputsFor([e]))
    requires |t.outputs| == 2 && t.outputs[0].address == destination && t.outputs[1].address == e.address
    requires destination != e.address && miner != e.address && t.id != CoinbaseTransaction(w, n, miner).id
    ensures var front, after := WithoutChange(w, [e], n, miner, t), Updated(n, [CoinbaseTransaction(w, n, miner), t], [e]);
      && DistinctTransactions(front) && OwnedEntries(front, e.address) == []
      && Owned(after, e.address) == t.outputs[1].amount
  {
    var coinbase := CoinbaseTransaction(w, n, miner);
    var minted, payment := UnspentOutput(coinbase.id, n, miner, COINBASE_AMOUNT),
                           UnspentOutput(t.id, n, destination, t.outputs[0].amount);
    var change := UnspentOutput(t.id, n, e.address, t.outputs[1].amount);
    UpdatedEndsWithChange(w, [e], n, miner, t);
    PairOfTransactions(n, coinbase, t);
    assert References(t.inputs)[0] == References(InputsFor([e]))[0] == KeyOf(e);
    assert Surviving([e], Spent([coinbase, t])) == [];
    assert CreatedBy(n, coinbase) == [minted];
    assert WithoutChange(w, [e], n, miner, t) == [minted] + [payment];
    OwnedEntriesAppend([minted], [payment], e.address);
    assert OwnedEntries([minted], e.address) == [] && OwnedEntries([payment], e.address) == [];
    OwnedAppend([minted], [payment], e.address);
    OwnedAppend([minted] + [payment], [change], e.address);
    assert Owned([minted], e.address) == 0 == Owned([payment], e.address) && [change][1..] == [];
  }
}
