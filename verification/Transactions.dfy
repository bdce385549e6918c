/** Transactions: identifiers, validity, creation and signing, and the unspent-output update. */
module Transactions {
  import opened Basics
  import opened Entities
  import opened Environment

  const COINBASE_AMOUNT: u64 := 50

  // An unspent output is named by its transaction and the index of its block, not by its position.
  type Key = (string, u64)

  function KeyOf(entry: UnspentOutput): Key {
    (entry.transactionId, entry.transactionIndex)
  }

  function Reference(input: Input): Key {
    (input.transactionOutputId, input.transactionOutputIndex)
  }

  function References(inputs: seq<Input>): (keys: seq<Key>)
    ensures |keys| == |inputs|
  {
    seq(|inputs|, i requires 0 <= i < |inputs| => Reference(inputs[i]))
  }

  function OutputAmounts(outputs: seq<Output>): seq<u64> {
    seq(|outputs|, i requires 0 <= i < |outputs| => outputs[i].amount)
  }

  // Transaction identifiers

  function EntryText(tag: string, text: string, number: u64): string {
    tag + "{" + text + "," + Decimal(number) + "}"
  }

  function InputText(input: Input): string {
    EntryText("I", input.transactionOutputId, input.transactionOutputIndex)
  }

  function OutputText(output: Output): string {
    EntryText("O", output.address, output.amount)
  }

  function InputsText(inputs: seq<Input>): string {
    if inputs == [] then "" else InputText(inputs[0]) + InputsText(inputs[1..])
  }

  function OutputsText(outputs: seq<Output>): string {
    if outputs == [] then "" else OutputText(outputs[0]) + OutputsText(outputs[1..])
  }

  method JoinInputs(inputs: seq<Input>) returns (text: string)
    ensures text == InputsText(inputs)
  {
    text := "";
    for i := 0 to |inputs|
      invariant text + InputsText(inputs[i..]) == InputsText(inputs)
    {
      text := text + InputText(inputs[i]);
      assert inputs[i..][1..] == inputs[i + 1..];
    }
  }

  method JoinOutputs(outputs: seq<Output>) returns (text: string)
    ensures text == OutputsText(outputs)
  {
    text := "";
    for i := 0 to |outputs|
      invariant text + OutputsText(outputs[i..]) == OutputsText(outputs)
    {
      text := text + OutputText(outputs[i]);
      assert outputs[i..][1..] == outputs[i + 1..];
    }
  }

  function IdPreimage(inputs: seq<Input>, outputs: seq<Output>): string {
    InputsText(inputs) + OutputsText(outputs)
  }

  function TransactionId(w: World, inputs: seq<Input>, outputs: seq<Output>): string {
    w.hash(IdPreimage(inputs, outputs))
  }

  /** What is hashed for an input and an output. */
  lemma IdPreimageText()
    ensures IdPreimage([Input("a", 1, "x")], [Output("c", 3)]) == "I{a,1}O{c,3}"
  {
    var a, c := Input("a", 1, "x"), Output("c", 3);
    OneDigitEntry("I", "a", 1, '1');
    OneDigitEntry("O", "c", 3, '3');
    assert [a][1..] == [] && [c][1..] == [];
    assert InputsText([a]) == InputText(a) + "" && OutputsText([c]) == OutputText(c) + "";
  }

  lemma OneDigitEntry(tag: string, text: string, number: u64, digit: char)
    requires number < 10 && digit == Digit(number)
    ensures EntryText(tag, text, number) == tag + "{" + text + "," + [digit] + "}"
  {
  }

  method ComputeTransactionId(w: World, inputs: seq<Input>, outputs: seq<Output>) returns (id: string)
    ensures id == TransactionId(w, inputs, outputs)
  {
    var inputsText := JoinInputs(inputs);
    var outputsText := JoinOutputs(outputs);
    id := w.hash(inputsText + outputsText);
  }

  // Signatures do not enter the preimage.
  lemma {:induction false} InputsTextIgnoresSignatures(a: seq<Input>, b: seq<Input>)
    requires References(a) == References(b)
    ensures InputsText(a) == InputsText(b)
  {
    assert |References(a)| == |a| && |References(b)| == |b|;
    if a != [] {
      assert References(a)[0] == References(b)[0];
      assert References(a[1..]) == References(a)[1..] && References(b[1..]) == References(b)[1..];
      InputsTextIgnoresSignatures(a[1..], b[1..]);
    }
  }

  // Searching the unspent outputs

  function FirstWithId(id: string, unspent: seq<UnspentOutput>): (r: Option<UnspentOutput>)
    ensures r.Some? ==> r.value in unspent && r.value.transactionId == id
    ensures r.None? <==> forall e :: e in unspent ==> e.transactionId != id
  {
    if unspent == [] then None
    else if unspent[0].transactionId == id then Some(unspent[0])
    else
      assert unspent == [unspent[0]] + unspent[1..];
      FirstWithId(id, unspent[1..])
  }

  function FirstWithKey(key: Key, unspent: seq<UnspentOutput>): (r: Option<UnspentOutput>)
    ensures r.Some? ==> r.value in unspent && KeyOf(r.value) == key
    ensures r.None? <==> forall e :: e in unspent ==> KeyOf(e) != key
  {
    if unspent == [] then None
    else if KeyOf(unspent[0]) == key then Some(unspent[0])
    else
      assert unspent == [unspent[0]] + unspent[1..];
      FirstWithKey(key, unspent[1..])
  }

  lemma {:induction false} FirstWithKeyAppend(key: Key, a: seq<UnspentOutput>, b: seq<UnspentOutput>)
    ensures FirstWithKey(key, a + b) == if FirstWithKey(key, a).Some? then FirstWithKey(key, a) else FirstWithKey(key, b)
  {
    if a == [] {
      assert a + b == b;
    } else {
      assert (a + b)[1..] == a[1..] + b;
      FirstWithKeyAppend(key, a[1..], b);
    }
  }

  /** The entry found is the first of the list with the key: whatever follows it does not matter. */
  lemma FirstWithKeyIsFirst(key: Key, a: seq<UnspentOutput>, e: UnspentOutput, b: seq<UnspentOutput>)
    requires KeyOf(e) == key && forall f :: f in a ==> KeyOf(f) != key
    ensures FirstWithKey(key, a + [e] + b) == Some(e)
  {
    FirstWithKeyAppend(key, a + [e], b);
    FirstWithKeyAppend(key, a, [e]);
  }

  // None: the search throws.
  method FindUnspentOutput(key: Key, unspent: seq<UnspentOutput>) returns (r: Option<UnspentOutput>)
    ensures r == FirstWithKey(key, unspent)
  {
    for i := 0 to |unspent|
      invariant FirstWithKey(key, unspent) == FirstWithKey(key, unspent[i..])
    {
      if key == KeyOf(unspent[i]) {
        return Some(unspent[i]);
      }
      assert unspent[i..][1..] == unspent[i + 1..];
    }
    r := None;
  }

  // Validity

  predicate IsInputValid(w: World, input: Input, id: string, unspent: seq<UnspentOutput>) {
    match FirstWithId(input.transactionOutputId, unspent)
    case None => false
    case Some(entry) => w.verify(id, input.signature, entry.address)
  }

  // The amount an input is taken to bring: that of the first entry with its id, whatever its index.
  function ReferencedAmount(input: Input, unspent: seq<UnspentOutput>): u64 {
    match FirstWithId(input.transactionOutputId, unspent)
    case None => 0
    case Some(entry) => entry.amount
  }

  function ReferencedAmounts(inputs: seq<Input>, unspent: seq<UnspentOutput>): seq<u64> {
    seq(|inputs|, i requires 0 <= i < |inputs| => ReferencedAmount(inputs[i], unspent))
  }

  predicate IsTransactionValid(w: World, t: Transaction, unspent: seq<UnspentOutput>) {
    && TransactionId(w, t.inputs, t.outputs) == t.id
    && (forall i :: 0 <= i < |t.inputs| ==> IsInputValid(w, t.inputs[i], t.id, unspent))
    && Accumulate32(0, ReferencedAmounts(t.inputs, unspent)) == Accumulate32(0, OutputAmounts(t.outputs))
  }

  /** The 32-bit accumulators decide the balance of a transaction modulo 2^32, no more. */
  lemma ValidMeansBalancedModulo32(w: World, t: Transaction, unspent: seq<UnspentOutput>)
    ensures IsTransactionValid(w, t, unspent) <==>
      && TransactionId(w, t.inputs, t.outputs) == t.id
      && (forall i :: 0 <= i < |t.inputs| ==> IsInputValid(w, t.inputs[i], t.id, unspent))
      && Sum(ReferencedAmounts(t.inputs, unspent)) % TWO_32 == Sum(OutputAmounts(t.outputs)) % TWO_32
  {
    Accumulate32Compares(ReferencedAmounts(t.inputs, unspent), OutputAmounts(t.outputs));
  }

  /** Modulo 2^32 is not equality: totals of 0 and 2^32 compare as equal. */
  lemma WrappedTotalsCompareEqual(w: World, address: string, unspent: seq<UnspentOutput>)
    ensures var outputs := [Output(address, TWO_32)];
            var t := Transaction(TransactionId(w, [], outputs), [], outputs);
      && IsTransactionValid(w, t, unspent)
      && Sum(ReferencedAmounts(t.inputs, unspent)) == 0 && Sum(OutputAmounts(t.outputs)) == TWO_32
  {
    var outputs := [Output(address, TWO_32)];
    assert OutputAmounts(outputs) == [TWO_32] && [TWO_32][1..] == [];
    assert Sum([TWO_32]) == TWO_32;
    ValidMeansBalancedModulo32(w, Transaction(TransactionId(w, [], outputs), [], outputs), unspent);
  }

  predicate IsCoinbaseTransactionValid(w: World, index: u64, t: Transaction) {
    && TransactionId(w, t.inputs, t.outputs) == t.id
    && |t.inputs| == 1
    && t.inputs[0].transactionOutputIndex == index
    && |t.outputs| == 1
    && t.outputs[0].amount == COINBASE_AMOUNT
  }

  // Creation and signing

  function Sign(w: World, id: string, inputs: seq<Input>, privateKeys: seq<string>): (signed: seq<Input>)
    requires |inputs| <= |privateKeys|
    ensures References(signed) == References(inputs)
  {
    seq(|inputs|, i requires 0 <= i < |inputs| => inputs[i].(signature := w.sign(id, privateKeys[i])))
  }

  // None: some input names no unspent output, and signing it throws.
  function CreatedTransaction(w: World, inputs: seq<Input>, outputs: seq<Output>,
                              privateKeys: seq<string>, unspent: seq<UnspentOutput>): Option<Transaction>
    requires privateKeys == [] || |inputs| <= |privateKeys|
  {
    var id := TransactionId(w, inputs, outputs);
    if privateKeys == [] then Some(Transaction(id, inputs, outputs))
    else if forall i :: 0 <= i < |inputs| ==> FirstWithKey(Reference(inputs[i]), unspent).Some? then
      Some(Transaction(id, Sign(w, id, inputs, privateKeys), outputs))
    else None
  }

  // Running past the end of the private keys is undefined in naivecoin, hence the precondition.
  method CreateTransaction(w: World, inputs: seq<Input>, outputs: seq<Output>,
                           privateKeys: seq<string>, unspent: seq<UnspentOutput>)
    returns (r: Option<Transaction>)
    requires privateKeys == [] || |inputs| <= |privateKeys|
    ensures r == CreatedTransaction(w, inputs, outputs, privateKeys, unspent)
  {
    var id := ComputeTransactionId(w, inputs, outputs);
    var signed := inputs;
    if privateKeys != [] {
      for i := 0 to |inputs|
        invariant |signed| == |inputs| && signed[i..] == inputs[i..]
        invariant signed[..i] == Sign(w, id, inputs, privateKeys)[..i]
        invariant forall k :: 0 <= k < i ==> FirstWithKey(Reference(inputs[k]), unspent).Some?
      {
        assert signed[i] == signed[i..][0] == inputs[i];
        var entry := FindUnspentOutput(Reference(signed[i]), unspent);
        if entry.None? {
          return None;
        }
        signed := signed[i := signed[i].(signature := w.sign(id, privateKeys[i]))];
      }
    }
    assert privateKeys != [] ==> signed == Sign(w, id, inputs, privateKeys);
    r := Some(Transaction(id, signed, outputs));
  }

  ghost predicate Unlisted(key: Key, unspent: seq<UnspentOutput>) {
    forall e :: e in unspent ==> KeyOf(e) != key
  }

  /** Creation throws exactly when there are keys to sign with and some input names no listed entry; otherwise
      it leaves the identifier right and changes neither references nor outputs, and without keys nothing. */
  lemma CreatedTransactionKeepsId(w: World, inputs: seq<Input>, outputs: seq<Output>,
                                  privateKeys: seq<string>, unspent: seq<UnspentOutput>)
    requires privateKeys == [] || |inputs| <= |privateKeys|
    ensures var r := CreatedTransaction(w, inputs, outputs, privateKeys, unspent);
      && (r.None? <==> privateKeys != [] && exists i :: 0 <= i < |inputs| && Unlisted(Reference(inputs[i]), unspent))
      && (r.Some? && privateKeys == [] ==> r.value.inputs == inputs)
    ensures var r := CreatedTransaction(w, inputs, outputs, privateKeys, unspent);
      r.Some? ==>
        && References(r.value.inputs) == References(inputs) && r.value.outputs == outputs
        && r.value.id == TransactionId(w, r.value.inputs, r.value.outputs)
  {
    var r := CreatedTransaction(w, inputs, outputs, privateKeys, unspent);
    if r.Some? {
      InputsTextIgnoresSignatures(r.value.inputs, inputs);
    }
  }

  // Signatures made with the private key verify for the address.
  ghost predicate SignsFor(w: World, privateKey: string, origin: string) {
    forall data :: w.verify(data, w.sign(data, privateKey), origin)
  }

  // Each input names a listed entry, and its own private key signs for the owner of the first one with its id.
  ghost predicate OwnKeys(w: World, inputs: seq<Input>, privateKeys: seq<string>, unspent: seq<UnspentOutput>)
    requires |inputs| <= |privateKeys|
  {
    forall i :: 0 <= i < |inputs| ==>
      && FirstWithKey(Reference(inputs[i]), unspent).Some?
      && FirstWithId(inputs[i].transactionOutputId, unspent).Some?
      && SignsFor(w, privateKeys[i], FirstWithId(inputs[i].transactionOutputId, unspent).value.address)
  }

  /** Inputs of several owners, each signed with the key of its own: the created transaction is valid exactly
      when it pays what the inputs bring, modulo 2^32. */
  lemma CreatedTransactionIsValid(w: World, inputs: seq<Input>, outputs: seq<Output>,
                                  privateKeys: seq<string>, unspent: seq<UnspentOutput>)
    requires privateKeys != [] && |inputs| <= |privateKeys| && OwnKeys(w, inputs, privateKeys, unspent)
    ensures var r := CreatedTransaction(w, inputs, outputs, privateKeys, unspent);
      r.Some? && (IsTransactionValid(w, r.value, unspent) <==>
        Sum(ReferencedAmounts(inputs, unspent)) % TWO_32 == Sum(OutputAmounts(outputs)) % TWO_32)
  {
    CreatedTransactionKeepsId(w, inputs, outputs, privateKeys, unspent);
    var t := CreatedTransaction(w, inputs, outputs, privateKeys, unspent).value;
    ValidMeansBalancedModulo32(w, t, unspent);
    assert ReferencedAmounts(t.inputs, unspent) == ReferencedAmounts(inputs, unspent);
  }

  function CoinbaseTransaction(w: World, index: u64, address: string): Transaction {
    var inputs := [Input("", index, "")];
    var outputs := [Output(address, COINBASE_AMOUNT)];
    Transaction(TransactionId(w, inputs, outputs), inputs, outputs)
  }

  /** A coinbase made for one block index is valid for that index and no other. */
  lemma CoinbaseValidExactlyForItsIndex(w: World, made: u64, asked: u64, address: string)
    ensures IsCoinbaseTransactionValid(w, asked, CoinbaseTransaction(w, made, address)) <==> asked == made
  {
  }

  // The unspent-output update

  function CreatedBy(index: u64, t: Transaction): seq<UnspentOutput> {
    seq(|t.outputs|, i requires 0 <= i < |t.outputs| =>
      UnspentOutput(t.id, index, t.outputs[i].address, t.outputs[i].amount))
  }

  function Created(index: u64, transactions: seq<Transaction>): seq<UnspentOutput> {
    if transactions == [] then []
    else CreatedBy(index, transactions[0]) + Created(index, transactions[1..])
  }

  function Spent(transactions: seq<Transaction>): seq<Key> {
    if transactions == [] then []
    else References(transactions[0].inputs) + Spent(transactions[1..])
  }

  function Surviving(unspent: seq<UnspentOutput>, spent: seq<Key>): seq<UnspentOutput> {
    if unspent == [] then []
    else (if KeyOf(unspent[0]) in spent then [] else [unspent[0]]) + Surviving(unspent[1..], spent)
  }

  function Updated(index: u64, transactions: seq<Transaction>, unspent: seq<UnspentOutput>): seq<UnspentOutput> {
    Surviving(unspent, Spent(transactions)) + Created(index, transactions)
  }

  method CollectCreated(index: u64, transactions: seq<Transaction>) returns (created: seq<UnspentOutput>)
    ensures created == Created(index, transactions)
  {
    created := [];
    for i := 0 to |transactions|
      invariant created + Created(index, transactions[i..]) == Created(index, transactions)
    {
      var t := transactions[i];
      ghost var before := created;
      for j := 0 to |t.outputs|
        invariant created == before + CreatedBy(index, t)[..j]
      {
        created := created + [UnspentOutput(t.id, index, t.outputs[j].address, t.outputs[j].amount)];
      }
      assert transactions[i..][1..] == transactions[i + 1..];
    }
  }

  method CollectSpent(transactions: seq<Transaction>) returns (spent: seq<Key>)
    ensures spent == Spent(transactions)
  {
    spent := [];
    for i := 0 to |transactions|
      invariant spent + Spent(transactions[i..]) == Spent(transactions)
    {
      var inputs := transactions[i].inputs;
      ghost var before := spent;
      for j := 0 to |inputs|
        invariant spent == before + References(inputs)[..j]
      {
        spent := spent + [Reference(inputs[j])];
      }
      assert transactions[i..][1..] == transactions[i + 1..];
    }
  }

  method RemoveSpent(previous: seq<UnspentOutput>, spent: seq<Key>) returns (unspent: seq<UnspentOutput>)
    ensures unspent == Surviving(previous, spent)
  {
    unspent := [];
    for i := 0 to |previous|
      invariant unspent + Surviving(previous[i..], spent) == Surviving(previous, spent)
    {
      if KeyOf(previous[i]) !in spent {
        unspent := unspent + [previous[i]];
      }
      assert previous[i..][1..] == previous[i + 1..];
    }
  }

  method UpdateUnspentOutputs(index: u64, transactions: seq<Transaction>, previous: seq<UnspentOutput>)
    returns (unspent: seq<UnspentOutput>)
    ensures unspent == Updated(index, transactions, previous)
  {
    var created := CollectCreated(index, transactions);
    var spent := CollectSpent(transactions);
    unspent := RemoveSpent(previous, spent);
    unspent := unspent + created;
  }
}
