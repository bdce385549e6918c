/** The hash preimages are uniquely decodable, and what that buys: tamper evidence. */
module Encodings {
  import opened Basics
  import opened Entities
  import opened Environment
  import opened Transactions
  import opened Blocks

  // Splitting at the first or last separator

  lemma SplitFirst(separator: char, a: string, b: string, x: string, y: string)
    requires separator !in a && separator !in b
    requires a + [separator] + x == b + [separator] + y
    ensures a == b && x == y
  {
    var left, right := a + [separator] + x, b + [separator] + y;
    assert left[|a|] == separator && forall i :: 0 <= i < |a| ==> left[i] == a[i];
    assert right[|b|] == separator && forall i :: 0 <= i < |b| ==> right[i] == b[i];
    assert |a| == |b|;
    assert a == left[..|a|] && b == right[..|a|];
    assert x == left[|a| + 1..] && y == right[|a| + 1..];
  }

  lemma SplitLast(separator: char, a: string, b: string, x: string, y: string)
    requires separator !in x && separator !in y
    requires a + [separator] + x == b + [separator] + y
    ensures a == b && x == y
  {
    var left, right := a + [separator] + x, b + [separator] + y;
    assert left[|a|] == separator && forall i :: |a| < i < |left| ==> left[i] == x[i - |a| - 1];
    assert right[|b|] == separator && forall i :: |b| < i < |right| ==> right[i] == y[i - |b| - 1];
    assert |a| == |b|;
    assert a == left[..|a|] && b == right[..|a|];
    assert x == left[|a| + 1..] && y == right[|a| + 1..];
  }

  // Blocks

  // The preimage without the index in front and without the two numbers behind.
  function Middle(w: World, b: Block): string {
    b.previousHash + "," + w.formatTime(b.timestamp) + "," + b.data
  }

  lemma PreimageFromFront(w: World, b: Block)
    ensures Preimage(w, b) == Decimal(b.index) + [','] + (Middle(w, b) + "," + Decimal(b.difficulty) + "," + Decimal(b.nonce))
    ensures Middle(w, b) + "," + Decimal(b.difficulty) + "," + Decimal(b.nonce)
         == (Middle(w, b) + "," + Decimal(b.difficulty)) + [','] + Decimal(b.nonce)
    ensures Middle(w, b) == b.previousHash + [','] + (w.formatTime(b.timestamp) + "," + b.data)
  {
  }

  /** Equal preimages have equal indices, whatever the other fields contain. */
  lemma PreimageDeterminesIndex(w: World, a: Block, b: Block)
    requires Preimage(w, a) == Preimage(w, b)
    ensures a.index == b.index
  {
    PreimageFromFront(w, a);
    PreimageFromFront(w, b);
    SplitFirst(',', Decimal(a.index), Decimal(b.index),
      Middle(w, a) + "," + Decimal(a.difficulty) + "," + Decimal(a.nonce),
      Middle(w, b) + "," + Decimal(b.difficulty) + "," + Decimal(b.nonce));
    DecimalInjective(a.index, b.index);
  }

  /** The block preimage is uniquely decodable, although data may contain any number of commas. */
  lemma PreimageDeterminesBlock(w: World, a: Block, b: Block)
    requires TimeCodec(w) && CommaFree(a.previousHash) && CommaFree(b.previousHash)
    requires Preimage(w, a) == Preimage(w, b)
    ensures a.(hash := b.hash) == b
  {
    PreimageFromFront(w, a);
    PreimageFromFront(w, b);
    PreimageDeterminesIndex(w, a, b);
    SplitFirst(',', Decimal(a.index), Decimal(b.index),
      Middle(w, a) + "," + Decimal(a.difficulty) + "," + Decimal(a.nonce),
      Middle(w, b) + "," + Decimal(b.difficulty) + "," + Decimal(b.nonce));
    SplitLast(',', Middle(w, a) + "," + Decimal(a.difficulty), Middle(w, b) + "," + Decimal(b.difficulty),
      Decimal(a.nonce), Decimal(b.nonce));
    DecimalInjective(a.nonce, b.nonce);
    SplitLast(',', Middle(w, a), Middle(w, b), Decimal(a.difficulty), Decimal(b.difficulty));
    DecimalInjective(a.difficulty, b.difficulty);
    SplitFirst(',', a.previousHash, b.previousHash,
      w.formatTime(a.timestamp) + "," + a.data, w.formatTime(b.timestamp) + "," + b.data);
    SplitFirst(',', w.formatTime(a.timestamp), w.formatTime(b.timestamp), a.data, b.data);
    assert w.parseTime(w.formatTime(a.timestamp)) == w.parseTime(w.formatTime(b.timestamp));
  }

  // Transactions

  lemma FieldsOfEntry(tag: char, a: string, m: u64, x: string, b: string, n: u64, y: string)
    requires CommaFree(a) && CommaFree(b)
    requires EntryText([tag], a, m) + x == EntryText([tag], b, n) + y
    ensures a == b && m == n && x == y
  {
    var left, right := EntryText([tag], a, m) + x, EntryText([tag], b, n) + y;
    assert left[2..] == a + [','] + (Decimal(m) + ['}'] + x);
    assert right[2..] == b + [','] + (Decimal(n) + ['}'] + y);
    SplitFirst(',', a, b, Decimal(m) + ['}'] + x, Decimal(n) + ['}'] + y);
    SplitFirst('}', Decimal(m), Decimal(n), x, y);
    DecimalInjective(m, n);
  }

  ghost predicate CommaFreeFields(inputs: seq<Input>, outputs: seq<Output>) {
    && (forall i :: 0 <= i < |inputs| ==> CommaFree(inputs[i].transactionOutputId))
    && (forall i :: 0 <= i < |outputs| ==> CommaFree(outputs[i].address))
  }

  lemma {:induction false} OutputsTextInjective(a: seq<Output>, b: seq<Output>)
    requires CommaFreeFields([], a) && CommaFreeFields([], b)
    requires OutputsText(a) == OutputsText(b)
    ensures a == b
    decreases |a|
  {
    if a == [] {
      if b != [] {
        TextStartsWithTag("O", b[0].address, b[0].amount);
      }
    } else {
      assert b != [] by {
        TextStartsWithTag("O", a[0].address, a[0].amount);
      }
      FieldsOfEntry('O', a[0].address, a[0].amount, OutputsText(a[1..]),
        b[0].address, b[0].amount, OutputsText(b[1..]));
      OutputsTextInjective(a[1..], b[1..]);
      assert a == [a[0]] + a[1..] && b == [b[0]] + b[1..];
    }
  }

  lemma TextStartsWithTag(tag: string, text: string, number: u64)
    requires tag != ""
    ensures EntryText(tag, text, number) != "" && EntryText(tag, text, number)[0] == tag[0]
  {
  }

  lemma PeelInput(inputs: seq<Input>, outputs: seq<Output>)
    requires inputs != []
    ensures IdPreimage(inputs, outputs) == InputText(inputs[0]) + IdPreimage(inputs[1..], outputs)
  {
    var first, rest, tail := InputText(inputs[0]), InputsText(inputs[1..]), OutputsText(outputs);
    assert first + rest + tail == first + (rest + tail);
  }

  lemma ReferencesCons(inputs: seq<Input>)
    requires inputs != []
    ensures References(inputs) == [Reference(inputs[0])] + References(inputs[1..])
  {
  }

  // The first character tells whether an input comes first.
  lemma FirstCharacter(inputs: seq<Input>, outputs: seq<Output>)
    ensures var text := IdPreimage(inputs, outputs); inputs != [] <==> text != "" && text[0] == 'I'
  {
    if inputs != [] {
      PeelInput(inputs, outputs);
      TextStartsWithTag("I", inputs[0].transactionOutputId, inputs[0].transactionOutputIndex);
    } else if outputs != [] {
      TextStartsWithTag("O", outputs[0].address, outputs[0].amount);
    }
  }

  /** The transaction-id preimage is uniquely decodable as soon as ids and addresses have no comma. */
  lemma {:induction false} IdPreimageDeterminesTransaction(
      inputsA: seq<Input>, outputsA: seq<Output>, inputsB: seq<Input>, outputsB: seq<Output>)
    requires CommaFreeFields(inputsA, outputsA) && CommaFreeFields(inputsB, outputsB)
    requires IdPreimage(inputsA, outputsA) == IdPreimage(inputsB, outputsB)
    ensures References(inputsA) == References(inputsB) && outputsA == outputsB
    decreases |inputsA|
  {
    FirstCharacter(inputsA, outputsA);
    FirstCharacter(inputsB, outputsB);
    if inputsA == [] {
      assert IdPreimage([], outputsA) == OutputsText(outputsA) && IdPreimage([], outputsB) == OutputsText(outputsB);
      OutputsTextInjective(outputsA, outputsB);
    } else {
      PeelInput(inputsA, outputsA);
      PeelInput(inputsB, outputsB);
      ReferencesCons(inputsA);
      ReferencesCons(inputsB);
      FieldsOfEntry('I',
        inputsA[0].transactionOutputId, inputsA[0].transactionOutputIndex, IdPreimage(inputsA[1..], outputsA),
        inputsB[0].transactionOutputId, inputsB[0].transactionOutputIndex, IdPreimage(inputsB[1..], outputsB));
      IdPreimageDeterminesTransaction(inputsA[1..], outputsA, inputsB[1..], outputsB);
    }
  }

  ghost predicate Collision(w: World, x: string, y: string) {
    x != y && w.hash(x) == w.hash(y)
  }

  /** Equal transaction ids mean equal references and outputs, or a hash collision at hand. */
  lemma EqualIdsEqualTransactions(w: World, a: Transaction, b: Transaction)
    requires CommaFreeFields(a.inputs, a.outputs) && CommaFreeFields(b.inputs, b.outputs)
    requires TransactionId(w, a.inputs, a.outputs) == a.id == b.id == TransactionId(w, b.inputs, b.outputs)
    ensures || (References(a.inputs) == References(b.inputs) && a.outputs == b.outputs)
            || Collision(w, IdPreimage(a.inputs, a.outputs), IdPreimage(b.inputs, b.outputs))
  {
    if IdPreimage(a.inputs, a.outputs) == IdPreimage(b.inputs, b.outputs) {
      IdPreimageDeterminesTransaction(a.inputs, a.outputs, b.inputs, b.outputs);
    }
  }

  /** The id of a valid coinbase fixes the index of its block and its payee, or there is a collision. */
  lemma CoinbaseIdFixesPayee(w: World, i: u64, a: Transaction, j: u64, b: Transaction)
    requires IsCoinbaseTransactionValid(w, i, a) && IsCoinbaseTransactionValid(w, j, b) && a.id == b.id
    requires CommaFreeFields(a.inputs, a.outputs) && CommaFreeFields(b.inputs, b.outputs)
    ensures || (i == j && a.outputs == b.outputs == [Output(b.outputs[0].address, COINBASE_AMOUNT)])
            || Collision(w, IdPreimage(a.inputs, a.outputs), IdPreimage(b.inputs, b.outputs))
  {
    EqualIdsEqualTransactions(w, a, b);
    if References(a.inputs) == References(b.inputs) {
      assert References(a.inputs)[0] == References(b.inputs)[0];
    }
  }

  // Chains

  function Last<T>(s: seq<T>): T
    requires s != []
  {
    s[|s| - 1]
  }

  function FromTip<T>(s: seq<T>, k: nat): T
    requires k < |s|
  {
    s[|s| - 1 - k]
  }

  // The chains hold the same blocks in their last n places.
  ghost predicate AgreeOnLast(a: seq<Block>, b: seq<Block>, n: nat)
    requires n <= |a| && n <= |b|
  {
    a[|a| - n..] == b[|b| - n..]
  }

  // Two blocks at the same distance from the tips have different preimages and one hash.
  ghost predicate ChainsCollide(w: World, a: seq<Block>, b: seq<Block>) {
    exists k :: 0 <= k < |a| && k < |b|
      && Collision(w, Preimage(w, FromTip(a, k)), Preimage(w, FromTip(b, k)))
  }

  ghost predicate Auditable(w: World, chain: seq<Block>) {
    IsValidChain(w, chain) && AllSelfConsistent(w, chain) && CommaFree(chain[0].previousHash)
  }

  lemma PreviousHashesCommaFree(w: World, chain: seq<Block>, i: nat)
    requires HexDigests(w) && Auditable(w, chain) && i < |chain|
    ensures CommaFree(chain[i].previousHash)
  {
    assert i > 0 ==> IsNewBlockValid(w, chain[i], chain[i - 1]);
  }

  // Two self-consistent blocks with comma-free previous hashes and one hash are one block, or they collide.
  lemma OneHashOneBlock(w: World, a: Block, b: Block)
    requires TimeCodec(w) && SelfConsistent(w, a) && SelfConsistent(w, b) && a.hash == b.hash
    requires CommaFree(a.previousHash) && CommaFree(b.previousHash)
    ensures a == b || Collision(w, Preimage(w, a), Preimage(w, b))
  {
    if Preimage(w, a) == Preimage(w, b) {
      PreimageDeterminesBlock(w, a, b);
    }
  }

  /** A valid chain in which one block after the first is exchanged for another that claims the same hash is
      not valid any more, or the two blocks collide. */
  lemma TamperedBlockIsRefused(w: World, chain: seq<Block>, i: nat, b: Block)
    requires TimeCodec(w) && HexDigests(w) && IsValidChain(w, chain) && 0 < i < |chain|
    requires b != chain[i] && b.hash == chain[i].hash
    ensures !IsValidChain(w, chain[i := b]) || Collision(w, Preimage(w, b), Preimage(w, chain[i]))
  {
    ValidBlocksHashed(w, chain, i);
    if IsValidChain(w, chain[i := b]) {
      ValidBlocksHashed(w, chain[i := b], i);
      OneHashOneBlock(w, b, chain[i]);
    }
  }

  lemma SameHashSameBlock(w: World, a: seq<Block>, i: nat, b: seq<Block>, j: nat)
    requires TimeCodec(w) && HexDigests(w) && Auditable(w, a) && Auditable(w, b)
    requires i < |a| && j < |b| && a[i].hash == b[j].hash
    ensures a[i] == b[j] || Collision(w, Preimage(w, a[i]), Preimage(w, b[j]))
  {
    PreviousHashesCommaFree(w, a, i);
    PreviousHashesCommaFree(w, b, j);
    OneHashOneBlock(w, a[i], b[j]);
  }

  lemma LinkedHashes(w: World, a: seq<Block>, i: nat, b: seq<Block>, j: nat)
    requires IsValidChain(w, a) && AllSelfConsistent(w, a) && IsValidChain(w, b) && AllSelfConsistent(w, b)
    requires i + 1 < |a| && j + 1 < |b| && a[i + 1] == b[j + 1]
    ensures a[i].hash == b[j].hash
  {
    assert IsNewBlockValid(w, a[i + 1], a[i]) && IsNewBlockValid(w, b[j + 1], b[j]);
  }

  lemma {:induction false} AgreementReachesBack(w: World, a: seq<Block>, b: seq<Block>, n: nat)
    requires TimeCodec(w) && HexDigests(w) && Auditable(w, a) && Auditable(w, b)
    requires Last(a).hash == Last(b).hash
    requires 1 <= n <= |a| && n <= |b|
    ensures AgreeOnLast(a, b, n) || ChainsCollide(w, a, b)
  {
    var i, j := |a| - n, |b| - n;
    if n > 1 {
      AgreementReachesBack(w, a, b, n - 1);
    }
    if !ChainsCollide(w, a, b) {
      if n > 1 {
        assert a[i + 1] == a[i + 1..][0] && b[j + 1] == b[j + 1..][0];
        LinkedHashes(w, a, i, b, j);
      }
      SameHashSameBlock(w, a, i, b, j);
      assert a[i] == FromTip(a, n - 1) && b[j] == FromTip(b, n - 1);
      assert a[i..] == [a[i]] + a[i + 1..] && b[j..] == [b[j]] + b[j + 1..];
    }
  }

  /** Tamper evidence: accepted chains with the same tip hash agree, block for block, over the whole
      length of the shorter one, or they contain two different preimages with one hash. */
  lemma TamperEvidence(w: World, a: seq<Block>, b: seq<Block>)
    requires TimeCodec(w) && HexDigests(w)
    requires Auditable(w, a) && Auditable(w, b)
    requires Last(a).hash == Last(b).hash
    ensures AgreeOnLast(a, b, Min(|a|, |b|)) || ChainsCollide(w, a, b)
  {
    AgreementReachesBack(w, a, b, Min(|a|, |b|));
  }

  lemma {:induction false} IndexIsPosition(w: World, chain: seq<Block>, i: nat)
    requires IsValidChain(w, chain) && i < |chain| && chain[0].index + i < TWO_64
    ensures chain[i].index == chain[0].index + i
  {
    if i > 0 {
      IndexIsPosition(w, chain, i - 1);
      assert IsNewBlockValid(w, chain[i], chain[i - 1]);
    }
  }

  /** From genesis the tip hash names the whole chain. */
  lemma TipNamesChain(w: World, a: seq<Block>, b: seq<Block>)
    requires TimeCodec(w) && HexDigests(w)
    requires IsValidChain(w, a) && IsValidChain(w, b) && AllSelfConsistent(w, a) && AllSelfConsistent(w, b)
    requires a[0] == b[0] == Genesis(w) && |a| <= TWO_64 && |b| <= TWO_64
    requires Last(a).hash == Last(b).hash
    ensures a == b || ChainsCollide(w, a, b)
  {
    TamperEvidence(w, a, b);
    if !ChainsCollide(w, a, b) {
      var n := Min(|a|, |b|);
      assert a[|a| - n..][n - 1] == b[|b| - n..][n - 1];
      IndexIsPosition(w, a, |a| - 1);
      IndexIsPosition(w, b, |b| - 1);
      assert a == a[|a| - n..] && b == b[|b| - n..];
    }
  }
}
