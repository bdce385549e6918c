/** Blocks, chains, transactions and messages to and from JSON, and the dispatch of messages. */
module Wire {
  import opened Basics
  import opened Entities
  import opened JsonValues
  import opened Environment
  import opened Blocks
  import opened Encodings

  // Lists: every serialising loop appends to an array, every deserialising loop fills a list and
  // stops at the first element whose conversion throws.

  function PrintedEach<T>(printer: T -> Json, values: seq<T>): seq<Json> {
    seq(|values|, i requires 0 <= i < |values| => printer(values[i]))
  }

  method PrintEach<T>(printer: T -> Json, values: seq<T>) returns (jsonArray: Json)
    ensures jsonArray == Arr(PrintedEach(printer, values))
  {
    var items: seq<Json> := [];
    for i := 0 to |values|
      invariant items == PrintedEach(printer, values)[..i]
    {
      items := items + [printer(values[i])];
    }
    jsonArray := Arr(items);
  }

  function ParsedEach<T>(parser: Json -> Option<T>, items: seq<Json>): Option<seq<T>> {
    if items == [] then Some([])
    else
      var first :- parser(items[0]);
      var rest :- ParsedEach(parser, items[1..]);
      Some([first] + rest)
  }

  // A converted front, then whatever the conversion of the remaining elements gives.
  function Prepend<T>(values: seq<T>, rest: Option<seq<T>>): Option<seq<T>> {
    match rest
    case None => None
    case Some(tail) => Some(values + tail)
  }

  lemma PrependStep<T>(parser: Json -> Option<T>, values: seq<T>, items: seq<Json>)
    requires items != []
    ensures Prepend(values, ParsedEach(parser, items))
         == match parser(items[0])
            case None => None
            case Some(value) => Prepend(values + [value], ParsedEach(parser, items[1..]))
  {
    var rest := ParsedEach(parser, items[1..]);
    if parser(items[0]).Some? && rest.Some? {
      var value := parser(items[0]).value;
      assert values + ([value] + rest.value) == values + [value] + rest.value;
    }
  }

  method ParseEach<T>(parser: Json -> Option<T>, jsonArray: Json) returns (r: Option<seq<T>>)
    ensures r == ParsedEach(parser, Elements(jsonArray))
  {
    var items := Elements(jsonArray);
    var values: seq<T> := [];
    ghost var goal := ParsedEach(parser, items);
    assert Prepend(values, goal) == goal by {
      if goal.Some? {
        assert values + goal.value == goal.value;
      }
    }
    assert items[0..] == items;
    for i := 0 to |items|
      invariant goal == Prepend(values, ParsedEach(parser, items[i..]))
    {
      var value := parser(items[i]);
      PrependStep(parser, values, items[i..]);
      assert items[i..][1..] == items[i + 1..];
      if value.None? {
        return None;
      }
      values := values + [value.value];
    }
    assert values + [] == values;
    r := Some(values);
  }

  lemma {:induction false} ParsedEachInverts<T>(parser: Json -> Option<T>, items: seq<Json>, values: seq<T>)
    requires |items| == |values|
    requires forall i :: 0 <= i < |items| ==> parser(items[i]) == Some(values[i])
    ensures ParsedEach(parser, items) == Some(values)
  {
    if items != [] {
      ParsedEachInverts(parser, items[1..], values[1..]);
      assert values == [values[0]] + values[1..];
    }
  }

  lemma {:induction false} ParsedEachFails<T>(parser: Json -> Option<T>, items: seq<Json>, i: nat)
    requires i < |items| && parser(items[i]).None?
    ensures ParsedEach(parser, items).None?
  {
    if i > 0 {
      ParsedEachFails(parser, items[1..], i - 1);
    }
  }

  // Transactions

  function OutputToJson(output: Output): Json {
    Obj([("address", Str(output.address)), ("amount", Num(output.amount))])
  }

  function InputJson(id: string, index: JsonInt, signature: string): Json {
    Obj([("signature", Str(signature)), ("transaction_output_id", Str(id)), ("transaction_output_index", Num(index))])
  }

  function InputToJson(input: Input): Json {
    InputJson(input.transactionOutputId, input.transactionOutputIndex, input.signature)
  }

  function TransactionToJson(t: Transaction): Json {
    Obj([("id", Str(t.id)),
         ("inputs", Arr(PrintedEach(InputToJson, t.inputs))),
         ("outputs", Arr(PrintedEach(OutputToJson, t.outputs)))])
  }

  function TransactionsToJson(transactions: seq<Transaction>): Json {
    Arr(PrintedEach(TransactionToJson, transactions))
  }

  function JsonToOutput(value: Json): Option<Output> {
    var address :- StringField(value, "address");
    var amount :- UInt64Field(value, "amount");
    Some(Output(address, amount))
  }

  function JsonToInput(value: Json): Option<Input> {
    var id :- StringField(value, "transaction_output_id");
    var index :- UIntField(value, "transaction_output_index");
    var signature :- StringField(value, "signature");
    Some(Input(id, index, signature))
  }

  function JsonToTransaction(value: Json): Option<Transaction> {
    var id :- StringField(value, "id");
    var inputsJson :- Field(value, "inputs");
    var inputs :- ParsedEach(JsonToInput, Elements(inputsJson));
    var outputsJson :- Field(value, "outputs");
    var outputs :- ParsedEach(JsonToOutput, Elements(outputsJson));
    Some(Transaction(id, inputs, outputs))
  }

  function JsonToTransactions(value: Json): Option<seq<Transaction>> {
    ParsedEach(JsonToTransaction, Elements(value))
  }

  function SerializeTransactions(w: World, transactions: seq<Transaction>): string {
    w.formatJson(TransactionsToJson(transactions))
  }

  function DeserializeTransactions(w: World, text: string): Option<seq<Transaction>> {
    var value :- w.parseJson(text);
    JsonToTransactions(value)
  }

  // Input indices are written with 64 bits and read back with 32.
  predicate SmallIndices(t: Transaction) {
    forall i :: 0 <= i < |t.inputs| ==> t.inputs[i].transactionOutputIndex < TWO_32
  }

  lemma {:induction false} ReadInputsSmall(items: seq<Json>)
    ensures var r := ParsedEach(JsonToInput, items);
      r.Some? ==> forall i :: 0 <= i < |r.value| ==> r.value[i].transactionOutputIndex < TWO_32
  {
    if items != [] {
      ReadInputsSmall(items[1..]);
    }
  }

  /** Whatever the value, a transaction read from it has input indices of 32 bits. */
  lemma ReadIndicesSmall(value: Json)
    ensures var t := JsonToTransaction(value); t.Some? ==> SmallIndices(t.value)
  {
    var inputs := Field(value, "inputs");
    if inputs.Some? {
      var read := ParsedEach(JsonToInput, Elements(inputs.value));
      ReadInputsSmall(Elements(inputs.value));
      if JsonToTransaction(value).Some? {
        var t := JsonToTransaction(value).value;
        assert read.Some? && t.inputs == read.value;
        forall i | 0 <= i < |t.inputs|
          ensures t.inputs[i].transactionOutputIndex < TWO_32
        {
          assert t.inputs[i] == read.value[i];
        }
      }
    }
  }

  lemma OutputRoundTrip(output: Output)
    ensures JsonToOutput(OutputToJson(output)) == Some(output)
  {
    LookupAt(OutputToJson(output).members, "amount", 1);
  }

  /** An index reads exactly when it is not negative and fits 32 bits. */
  lemma IndexReadsExactly(id: string, index: JsonInt, signature: string)
    ensures JsonToInput(InputJson(id, index, signature))
         == if 0 <= index < TWO_32 then Some(Input(id, index, signature)) else None
  {
    var members := InputJson(id, index, signature).members;
    LookupAt(members, "transaction_output_id", 1);
    LookupAt(members, "transaction_output_index", 2);
  }

  lemma InputRoundTrip(input: Input)
    ensures JsonToInput(InputToJson(input))
         == if input.transactionOutputIndex < TWO_32 then Some(input) else None
  {
    IndexReadsExactly(input.transactionOutputId, input.transactionOutputIndex, input.signature);
  }

  /** A transaction survives the wire exactly when its input indices fit 32 bits, and throws otherwise. */
  lemma TransactionRoundTrip(t: Transaction)
    ensures JsonToTransaction(TransactionToJson(t)) == if SmallIndices(t) then Some(t) else None
  {
    var value := TransactionToJson(t);
    var inputs, outputs := PrintedEach(InputToJson, t.inputs), PrintedEach(OutputToJson, t.outputs);
    LookupAt(value.members, "inputs", 1);
    LookupAt(value.members, "outputs", 2);
    forall i | 0 <= i < |outputs|
      ensures JsonToOutput(outputs[i]) == Some(t.outputs[i])
    {
      OutputRoundTrip(t.outputs[i]);
    }
    ParsedEachInverts(JsonToOutput, outputs, t.outputs);
    forall i | 0 <= i < |inputs|
      ensures JsonToInput(inputs[i]) == if t.inputs[i].transactionOutputIndex < TWO_32 then Some(t.inputs[i]) else None
    {
      InputRoundTrip(t.inputs[i]);
    }
    if SmallIndices(t) {
      ParsedEachInverts(JsonToInput, inputs, t.inputs);
    } else {
      var i :| 0 <= i < |t.inputs| && t.inputs[i].transactionOutputIndex >= TWO_32;
      ParsedEachFails(JsonToInput, inputs, i);
    }
  }

  /** The same for lists of transactions, in order. */
  lemma TransactionsRoundTrip(transactions: seq<Transaction>)
    ensures JsonToTransactions(TransactionsToJson(transactions))
         == if forall t :: t in transactions ==> SmallIndices(t) then Some(transactions) else None
  {
    var items := PrintedEach(TransactionToJson, transactions);
    forall i | 0 <= i < |items|
      ensures JsonToTransaction(items[i]) == if SmallIndices(transactions[i]) then Some(transactions[i]) else None
    {
      TransactionRoundTrip(transactions[i]);
    }
    if forall t :: t in transactions ==> SmallIndices(t) {
      ParsedEachInverts(JsonToTransaction, items, transactions);
    } else {
      var t :| t in transactions && !SmallIndices(t);
      var i :| 0 <= i < |transactions| && transactions[i] == t;
      ParsedEachFails(JsonToTransaction, items, i);
    }
  }

  // Unspent outputs, as a node hands them to the client

  function UnspentOutputToJson(entry: UnspentOutput): Json {
    Obj([("address", Str(entry.address)), ("amount", Num(entry.amount)),
         ("transaction_id", Str(entry.transactionId)), ("transaction_index", Num(entry.transactionIndex))])
  }

  function JsonToUnspentOutput(value: Json): Option<UnspentOutput> {
    var id :- StringField(value, "transaction_id");
    var index :- UInt64Field(value, "transaction_index");
    var address :- StringField(value, "address");
    var amount :- UInt64Field(value, "amount");
    Some(UnspentOutput(id, index, address, amount))
  }

  lemma UnspentOutputRoundTrip(entry: UnspentOutput)
    ensures JsonToUnspentOutput(UnspentOutputToJson(entry)) == Some(entry)
  {
    var members := UnspentOutputToJson(entry).members;
    LookupAt(members, "amount", 1);
    LookupAt(members, "transaction_id", 2);
    LookupAt(members, "transaction_index", 3);
  }

  /** Unspent outputs survive the wire unchanged and in order. */
  lemma UnspentOutputsRoundTrip(unspent: seq<UnspentOutput>)
    ensures ParsedEach(JsonToUnspentOutput, PrintedEach(UnspentOutputToJson, unspent)) == Some(unspent)
  {
    var items := PrintedEach(UnspentOutputToJson, unspent);
    forall i | 0 <= i < |items|
      ensures JsonToUnspentOutput(items[i]) == Some(unspent[i])
    {
      UnspentOutputRoundTrip(unspent[i]);
    }
    ParsedEachInverts(JsonToUnspentOutput, items, unspent);
  }

  // Blocks

  function BlockToJson(w: World, b: Block): Json {
    Obj([("data", Str(b.data)), ("difficulty", Num(b.difficulty)), ("hash", Str(b.hash)), ("index", Num(b.index)),
         ("nonce", Num(b.nonce)), ("previous_hash", Str(b.previousHash)), ("timestamp", Str(w.formatTime(b.timestamp)))])
  }

  // The index is cut to 16 bits, then the hash is computed again; a mismatch throws.
  function JsonToBlock(w: World, value: Json): (r: Option<Block>)
    ensures r.Some? ==> SelfConsistent(w, r.value) && r.value.index < TWO_16
  {
    var timestamp :- StringField(value, "timestamp");
    var index :- UInt64Field(value, "index");
    var previousHash :- StringField(value, "previous_hash");
    var data :- StringField(value, "data");
    var difficulty :- UIntField(value, "difficulty");
    var nonce :- UInt64Field(value, "nonce");
    var hash :- StringField(value, "hash");
    var b := MakeBlock(w, index % TWO_16, previousHash, w.parseTime(timestamp), data, difficulty % TWO_16, nonce);
    if b.hash == hash then Some(b) else None
  }

  function BlockPrinter(w: World): Block -> Json {
    b => BlockToJson(w, b)
  }

  function BlockParser(w: World): Json -> Option<Block> {
    value => JsonToBlock(w, value)
  }

  function ChainToJson(w: World, chain: seq<Block>): Json {
    Arr(PrintedEach(BlockPrinter(w), chain))
  }

  function JsonToChain(w: World, value: Json): Option<seq<Block>> {
    ParsedEach(BlockParser(w), Elements(value))
  }

  lemma {:induction false} ParsedChainSelfConsistent(w: World, items: seq<Json>)
    ensures var r := ParsedEach(BlockParser(w), items); r.Some? ==> AllSelfConsistent(w, r.value)
  {
    if items != [] {
      ParsedChainSelfConsistent(w, items[1..]);
    }
  }

  lemma BlockTextFields(w: World, b: Block)
    ensures var value := BlockToJson(w, b);
      && StringField(value, "timestamp") == Some(w.formatTime(b.timestamp))
      && StringField(value, "previous_hash") == Some(b.previousHash)
      && StringField(value, "data") == Some(b.data)
      && StringField(value, "hash") == Some(b.hash)
  {
    var members := BlockToJson(w, b).members;
    assert "data"[0] != "hash"[0];
    LookupAt(members, "hash", 2);
    LookupAt(members, "previous_hash", 5);
    LookupAt(members, "timestamp", 6);
  }

  lemma BlockNumberFields(w: World, b: Block)
    ensures var value := BlockToJson(w, b);
      && UInt64Field(value, "index") == Some(b.index)
      && UIntField(value, "difficulty") == Some(b.difficulty)
      && UInt64Field(value, "nonce") == Some(b.nonce)
  {
    var members := BlockToJson(w, b).members;
    assert "index"[0] != "nonce"[0];
    LookupAt(members, "difficulty", 1);
    LookupAt(members, "index", 3);
    LookupAt(members, "nonce", 4);
  }

  // What a reader makes of a block, should the hash still fit.
  function Cut(b: Block): Block {
    b.(index := b.index % TWO_16)
  }

  function CutEach(chain: seq<Block>): (r: seq<Block>)
    ensures |r| == |chain|
  {
    seq(|chain|, i requires 0 <= i < |chain| => Cut(chain[i]))
  }

  lemma ReadsAsCut(w: World, b: Block, value: Json)
    requires w.parseTime(w.formatTime(b.timestamp)) == b.timestamp
    requires StringField(value, "timestamp") == Some(w.formatTime(b.timestamp))
    requires StringField(value, "previous_hash") == Some(b.previousHash) && StringField(value, "data") == Some(b.data)
    requires StringField(value, "hash") == Some(b.hash) && UInt64Field(value, "index") == Some(b.index)
    requires UIntField(value, "difficulty") == Some(b.difficulty) && UInt64Field(value, "nonce") == Some(b.nonce)
    ensures JsonToBlock(w, value) == if SelfConsistent(w, Cut(b)) then Some(Cut(b)) else None
  {
  }

  /** A block reads back with its index cut to 16 bits if its hash is that of the cut block, and is refused
      otherwise; so one with an index below 2^16 survives exactly when its hash is its own. */
  lemma BlockRoundTrip(w: World, b: Block)
    requires TimeCodec(w)
    ensures JsonToBlock(w, BlockToJson(w, b)) == if SelfConsistent(w, Cut(b)) then Some(Cut(b)) else None
    ensures b.index < TWO_16 ==> Cut(b) == b
  {
    BlockTextFields(w, b);
    BlockNumberFields(w, b);
    ReadsAsCut(w, b, BlockToJson(w, b));
  }

  /** A block with a larger index is refused by its reader, or it exhibits a hash collision. */
  lemma LargeIndexRefused(w: World, b: Block)
    requires TimeCodec(w) && b.index >= TWO_16 && SelfConsistent(w, b)
    ensures var r := JsonToBlock(w, BlockToJson(w, b));
      r.Some? ==> Collision(w, Preimage(w, b), Preimage(w, r.value))
  {
    BlockTextFields(w, b);
    BlockNumberFields(w, b);
    var r := JsonToBlock(w, BlockToJson(w, b));
    if r.Some? && Preimage(w, b) == Preimage(w, r.value) {
      PreimageDeterminesIndex(w, b, r.value);
    }
  }

  /** A chain reads back block for block, each with its index cut, or is refused as soon as one hash does
      not fit its cut block. */
  lemma ChainOverWire(w: World, chain: seq<Block>)
    requires TimeCodec(w)
    ensures JsonToChain(w, ChainToJson(w, chain))
         == if AllSelfConsistent(w, CutEach(chain)) then Some(CutEach(chain)) else None
  {
    var items := PrintedEach(BlockPrinter(w), chain);
    forall i | 0 <= i < |items|
      ensures BlockParser(w)(items[i]) == if SelfConsistent(w, CutEach(chain)[i]) then Some(CutEach(chain)[i]) else None
    {
      assert items[i] == BlockToJson(w, chain[i]);
      BlockRoundTrip(w, chain[i]);
    }
    if AllSelfConsistent(w, CutEach(chain)) {
      ParsedEachInverts(BlockParser(w), items, CutEach(chain));
    } else {
      var i :| 0 <= i < |chain| && !SelfConsistent(w, CutEach(chain)[i]);
      ParsedEachFails(BlockParser(w), items, i);
    }
  }

  predicate ShortIndices(chain: seq<Block>) {
    forall i :: 0 <= i < |chain| ==> chain[i].index < TWO_16
  }

  lemma CutNothing(chain: seq<Block>)
    requires ShortIndices(chain)
    ensures CutEach(chain) == chain
  {
    forall i | 0 <= i < |chain|
      ensures CutEach(chain)[i] == chain[i]
    {
    }
  }

  /** A chain of self-consistent blocks with indices below 2^16 survives the wire, in order. */
  lemma ChainRoundTrip(w: World, chain: seq<Block>)
    requires TimeCodec(w) && AllSelfConsistent(w, chain) && ShortIndices(chain)
    ensures JsonToChain(w, ChainToJson(w, chain)) == Some(chain)
  {
    ChainOverWire(w, chain);
    CutNothing(chain);
  }

  /** Of a valid chain that starts at index 0 a reader gets nothing else past its check of validity: either
      the chain has at most 2^16 blocks, none of them cut, or what is read is not a valid chain. */
  lemma ValidOnlyUncut(w: World, chain: seq<Block>)
    requires IsValidChain(w, chain) && chain[0].index == 0
    ensures |chain| <= TWO_16 ==> CutEach(chain) == chain && ShortIndices(chain)
    ensures |chain| > TWO_16 ==> !IsValidChain(w, CutEach(chain))
  {
    if |chain| <= TWO_16 {
      forall i | 0 <= i < |chain|
        ensures chain[i].index == i
      {
        IndexIsPosition(w, chain, i);
      }
      CutNothing(chain);
    } else if IsValidChain(w, CutEach(chain)) {
      IndexIsPosition(w, CutEach(chain), TWO_16);
      assert false;
    }
  }

  // Messages

  datatype Message =
    | SendBlock(block: Block, sender: string)
    | SendBlockchain(blockchain: seq<Block>, sender: string)
    | QueryLatestBlock(sender: string)
    | QueryBlockchain(sender: string)

  // Which callback process_message ends up in. The text of an error is not modelled.
  datatype Call = Handle(message: Message) | Unknown(name: string, from: string) | Invalid

  function Envelope(name: string, data: Json, sender: string): Json {
    Obj([("data", data), ("message", Str(name)), ("sender", Str(sender))])
  }

  function MessageToJson(w: World, message: Message): Json {
    match message
    case SendBlock(b, sender) => Envelope("send block", BlockToJson(w, b), sender)
    case SendBlockchain(chain, sender) => Envelope("send blockchain", ChainToJson(w, chain), sender)
    case QueryLatestBlock(sender) => Envelope("query latest block", Null, sender)
    case QueryBlockchain(sender) => Envelope("query blockchain", Null, sender)
  }

  function CreateMessage(w: World, message: Message): string {
    w.formatJson(MessageToJson(w, message))
  }

  // The callback a message of some name and payload ends up in; None when reading the payload throws.
  function Callback(w: World, name: string, data: Json, sender: string): Option<Call> {
    if name == "send block" then
      var b :- JsonToBlock(w, data);
      Some(Handle(SendBlock(b, sender)))
    else if name == "send blockchain" then
      var chain :- JsonToChain(w, data);
      Some(Handle(SendBlockchain(chain, sender)))
    else if name == "query latest block" then Some(Handle(QueryLatestBlock(sender)))
    else if name == "query blockchain" then Some(Handle(QueryBlockchain(sender)))
    else Some(Unknown(name, sender))
  }

  function Dispatched(w: World, root: Json): Option<Call> {
    var sender :- StringField(root, "sender");
    var name :- StringField(root, "message");
    var data :- Field(root, "data");
    Callback(w, name, data, sender)
  }

  function ProcessMessage(w: World, text: string): (call: Call) {
    match w.parseJson(text)
    case None => Invalid
    case Some(root) =>
      if !root.Obj? then Invalid
      else match Dispatched(w, root)
        case None => Invalid
        case Some(c) => c
  }

  // JsonCpp reads back what it wrote, for the values this program writes, and reads [] as an empty array;
  // the data of a block is read as JSON.
  ghost predicate JsonCodec(w: World) {
    && (forall m: Message :: w.parseJson(CreateMessage(w, m)) == Some(MessageToJson(w, m)))
    && (forall ts :: w.parseJson(SerializeTransactions(w, ts)) == Some(TransactionsToJson(ts)))
    && w.parseJson("[]") == Some(Arr([]))
    && forall text :: w.readTransactions(text) == DeserializeTransactions(w, text)
  }

  predicate Transportable(w: World, message: Message) {
    match message
    case SendBlock(b, _) => SelfConsistent(w, b) && b.index < TWO_16
    case SendBlockchain(chain, _) => AllSelfConsistent(w, chain) && ShortIndices(chain)
    case _ => true
  }

  lemma EnvelopeFields(name: string, data: Json, sender: string)
    ensures var root := Envelope(name, data, sender);
      StringField(root, "sender") == Some(sender) && StringField(root, "message") == Some(name)
      && Field(root, "data") == Some(data)
  {
    var members := Envelope(name, data, sender).members;
    LookupAt(members, "message", 1);
    LookupAt(members, "sender", 2);
  }

  lemma DispatchedIsCallback(w: World, name: string, data: Json, sender: string)
    ensures Dispatched(w, Envelope(name, data, sender)) == Callback(w, name, data, sender)
  {
    EnvelopeFields(name, data, sender);
  }

  // Where a message ends up: its matching handler, with what is left of its blocks, or nowhere.
  function Destination(w: World, message: Message): Call {
    match message
    case SendBlock(b, sender) => if SelfConsistent(w, Cut(b)) then Handle(SendBlock(Cut(b), sender)) else Invalid
    case SendBlockchain(chain, sender) =>
      if AllSelfConsistent(w, CutEach(chain)) then Handle(SendBlockchain(CutEach(chain), sender)) else Invalid
    case _ => Handle(message)
  }

  /** Every message a node creates reaches the matching handler of its reader with the same sender and with
      its blocks cut, or is refused. */
  lemma MessageOverWire(w: World, message: Message)
    requires TimeCodec(w) && JsonCodec(w)
    ensures ProcessMessage(w, CreateMessage(w, message)) == Destination(w, message)
  {
    assert w.parseJson(CreateMessage(w, message)) == Some(MessageToJson(w, message));
    match message {
      case SendBlock(b, sender) =>
        DispatchedIsCallback(w, "send block", BlockToJson(w, b), sender);
        BlockRoundTrip(w, b);
      case SendBlockchain(chain, sender) =>
        DispatchedIsCallback(w, "send blockchain", ChainToJson(w, chain), sender);
        ChainOverWire(w, chain);
        assert |"send blockchain"| != |"send block"|;
      case QueryLatestBlock(sender) =>
        DispatchedIsCallback(w, "query latest block", Null, sender);
        assert |"query latest block"| != |"send block"| && |"query latest block"| != |"send blockchain"|;
      case QueryBlockchain(sender) =>
        DispatchedIsCallback(w, "query blockchain", Null, sender);
        assert |"query blockchain"| != |"send block"| && |"query blockchain"| != |"send blockchain"|
            && |"query blockchain"| != |"query latest block"|;
    }
  }

  lemma TransportableArrives(w: World, message: Message)
    requires Transportable(w, message)
    ensures Destination(w, message) == Handle(message)
  {
    match message
    case SendBlock(b, _) => assert Cut(b) == b;
    case SendBlockchain(chain, _) => CutNothing(chain);
    case _ =>
  }

  /** A message whose blocks are self-consistent with indices below 2^16 reaches exactly the matching
      handler, with the same payload and sender. */
  lemma MessageRoundTrip(w: World, message: Message)
    requires TimeCodec(w) && JsonCodec(w) && Transportable(w, message)
    ensures ProcessMessage(w, CreateMessage(w, message)) == Handle(message)
  {
    MessageOverWire(w, message);
    TransportableArrives(w, message);
  }

  /** What the accessors let pass: null and absent members read as empty text and zero, numbers read as their
      decimal text, the members of an object as a list, and null as an empty one; but not as a block, and texts,
      numbers and arrays have no members. */
  lemma LenientReading(w: World, name: string, n: int, value: Json, text: string)
    requires HexDigests(w) && 0 < n < TWO_32
    ensures StringField(Null, name) == StringField(Obj([]), name) == Some("")
    ensures UInt64Field(Null, name) == UInt64Field(Obj([]), name) == Some(0)
    ensures StringField(Obj([(name, Num(n))]), name) == Some(Decimal(n))
    ensures StringField(Obj([(name, Num(-n))]), name) == Some("-" + Decimal(n))
    ensures StringField(Str(text), name) == StringField(Num(n), name) == StringField(Arr([value]), name) == None
    ensures JsonToTransactions(Obj([(name, value)])) == JsonToTransactions(Arr([value]))
    ensures JsonToChain(w, Null) == Some([])
    ensures JsonToBlock(w, Null) == None && JsonToBlock(w, Obj([])) == None
  {
    LookupAt([(name, Num(n))], name, 0);
    LookupAt([(name, Num(-n))], name, 0);
    assert Elements(Obj([(name, value)])) == [value];
  }

  /** Any other text: one that is not a JSON object is refused, and an envelope with a name of none of the four
      messages reaches the handler of unknown ones with that name and its sender. */
  lemma OtherTexts(w: World, text: string, name: string, data: Json, sender: string)
    requires name !in {"send block", "send blockchain", "query latest block", "query blockchain"}
    ensures w.parseJson(text).None? || !w.parseJson(text).value.Obj? ==> ProcessMessage(w, text) == Invalid
    ensures w.parseJson(text) == Some(Envelope(name, data, sender)) ==> ProcessMessage(w, text) == Unknown(name, sender)
  {
    DispatchedIsCallback(w, name, data, sender);
  }

  predicate CarriesSelfConsistentBlocks(w: World, call: Call) {
    match call
    case Handle(SendBlock(b, _)) => SelfConsistent(w, b)
    case Handle(SendBlockchain(chain, _)) => AllSelfConsistent(w, chain)
    case _ => true
  }

  lemma CallbackBlocksSelfConsistent(w: World, name: string, data: Json, sender: string)
    ensures var r := Callback(w, name, data, sender); r.Some? ==> CarriesSelfConsistentBlocks(w, r.value)
  {
    ParsedChainSelfConsistent(w, Elements(data));
  }

  /** Whatever the text, a block or chain handed to a handler consists of self-consistent blocks. */
  lemma HandledBlocksSelfConsistent(w: World, text: string)
    ensures CarriesSelfConsistentBlocks(w, ProcessMessage(w, text))
  {
    if w.parseJson(text).Some? {
      var root := w.parseJson(text).value;
      var name, data, sender := StringField(root, "message"), Field(root, "data"), StringField(root, "sender");
      if name.Some? && data.Some? && sender.Some? {
        CallbackBlocksSelfConsistent(w, name.value, data.value, sender.value);
      }
    }
  }
}
