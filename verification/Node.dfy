/** The node: its ledger, the operations on it and the handlers of messages. */
module Nodes {
  import opened JsonValues
  import opened Basics
  import opened Entities
  import opened Environment
  import opened Transactions
  import opened Blocks
  import opened Encodings
  import opened Wire
  import opened Ledger

  datatype LedgerState = LedgerState(
    blockchain: seq<Block>, unspentOutputs: seq<UnspentOutput>, pendingTransactions: seq<Transaction>)

  // The ledger after an operation; completed is false when the data of a block did not parse and the
  // operation ended there with an exception.
  datatype Outcome = Outcome(state: LedgerState, completed: bool)

  // Pending transactions

  predicate Confirms(transactions: seq<Transaction>, id: string) {
    exists t :: t in transactions && t.id == id
  }

  function Unconfirmed(pending: seq<Transaction>, transactions: seq<Transaction>): seq<Transaction> {
    if pending == [] then []
    else (if Confirms(transactions, pending[0].id) then [] else [pending[0]]) + Unconfirmed(pending[1..], transactions)
  }

  method RemoveConfirmed(pending: seq<Transaction>, transactions: seq<Transaction>) returns (rest: seq<Transaction>)
    ensures rest == Unconfirmed(pending, transactions)
  {
    rest := [];
    for i := 0 to |pending|
      invariant rest + Unconfirmed(pending[i..], transactions) == Unconfirmed(pending, transactions)
    {
      if !Confirms(transactions, pending[i].id) {
        rest := rest + [pending[i]];
      }
      assert pending[i..][1..] == pending[i + 1..];
    }
  }

  lemma {:induction false} UnconfirmedByNone(pending: seq<Transaction>)
    ensures Unconfirmed(pending, []) == pending
  {
    if pending != [] {
      UnconfirmedByNone(pending[1..]);
    }
  }

  /** What stays in the pool: exactly the transactions whose id none of the confirmed ones has. */
  lemma {:induction false} UnconfirmedMembers(pending: seq<Transaction>, transactions: seq<Transaction>, p: Transaction)
    ensures p in Unconfirmed(pending, transactions) <==> p in pending && forall t :: t in transactions ==> t.id != p.id
  {
    if pending != [] {
      UnconfirmedMembers(pending[1..], transactions, p);
      assert p in pending <==> p == pending[0] || p in pending[1..];
    }
  }

  // Adding and replacing

  // The block is pushed before its data is parsed.
  function AddBlock(w: World, s: LedgerState, b: Block): Outcome {
    var pushed := s.(blockchain := s.blockchain + [b]);
    match w.readTransactions(b.data)
    case None => Outcome(pushed, false)
    case Some(transactions) =>
      Outcome(LedgerState(pushed.blockchain, Updated(b.index, transactions, s.unspentOutputs),
                          Unconfirmed(s.pendingTransactions, transactions)), true)
  }

  function AddBlocks(w: World, s: LedgerState, blocks: seq<Block>): (r: Outcome)
    ensures s.blockchain != [] || blocks != [] ==> r.state.blockchain != []
    decreases |blocks|
  {
    if blocks == [] then Outcome(s, true)
    else
      var first := AddBlock(w, s, blocks[0]);
      if first.completed then AddBlocks(w, first.state, blocks[1..]) else first
  }

  function ReplaceChain(w: World, s: LedgerState, blocks: seq<Block>): Outcome {
    AddBlocks(w, s.(blockchain := [], unspentOutputs := []), blocks)
  }

  predicate Extends(tip: Block, b: Block) {
    b.index == Successor(tip.index) && b.previousHash == tip.hash
  }

  function TryAdding(w: World, s: LedgerState, b: Block): Outcome
    requires s.blockchain != []
  {
    if Extends(Last(s.blockchain), b) then AddBlock(w, s, b) else Outcome(s, true)
  }

  // How many of the blocks are pushed: all up to the first one whose data does not parse.
  function Pushed(w: World, blocks: seq<Block>): (n: nat)
    ensures n <= |blocks| && (blocks != [] ==> n > 0)
  {
    if blocks == [] then 0
    else if !WellFormed(w, blocks[0]) then 1
    else 1 + Pushed(w, blocks[1..])
  }

  // What a replacement keeps of a chain: its blocks up to the first whose data does not parse.
  function Kept(w: World, blocks: seq<Block>): seq<Block> {
    blocks[..Pushed(w, blocks)]
  }

  /** An added block enters chain, unspent outputs and pool alike; data that does not parse counts as
      no transactions. */
  lemma AddBlockEffect(w: World, s: LedgerState, b: Block)
    ensures AddBlock(w, s, b) == Outcome(
      LedgerState(s.blockchain + [b], Updated(b.index, BlockTransactions(w, b), s.unspentOutputs),
                  Unconfirmed(s.pendingTransactions, BlockTransactions(w, b))), WellFormed(w, b))
  {
    UnconfirmedByNone(s.pendingTransactions);
    SurvivingAll(s.unspentOutputs);
  }

  lemma PushedCons(w: World, blocks: seq<Block>)
    requires blocks != []
    ensures var n, rest := Pushed(w, blocks), blocks[1..];
      && blocks[..n] == [blocks[0]] + rest[..n - 1]
      && n - 1 == if WellFormed(w, blocks[0]) then Pushed(w, rest) else 0
    ensures AllWellFormed(w, blocks) <==> WellFormed(w, blocks[0]) && AllWellFormed(w, blocks[1..])
  {
    assert forall i :: 0 <= i < |blocks| - 1 ==> blocks[1..][i] == blocks[i + 1];
    assert forall i :: 0 < i < |blocks| ==> blocks[i] == blocks[1..][i - 1];
  }

  lemma ReplayCons(w: World, unspent: seq<UnspentOutput>, b: Block, rest: seq<Block>)
    ensures ReplayFrom(w, unspent, [b] + rest)
         == ReplayFrom(w, Updated(b.index, BlockTransactions(w, b), unspent), rest)
  {
    assert ([b] + rest)[1..] == rest;
  }

  lemma {:induction false} AddBlocksEffect(w: World, s: LedgerState, blocks: seq<Block>)
    ensures var r := AddBlocks(w, s, blocks);
      && r.completed == AllWellFormed(w, blocks)
      && r.state.blockchain == s.blockchain + blocks[..Pushed(w, blocks)]
      && r.state.unspentOutputs == ReplayFrom(w, s.unspentOutputs, blocks[..Pushed(w, blocks)])
    decreases |blocks|
  {
    if blocks != [] {
      var b, rest := blocks[0], blocks[1..];
      var tail := rest[..Pushed(w, blocks) - 1];
      AddBlockEffect(w, s, b);
      PushedCons(w, blocks);
      ReplayCons(w, s.unspentOutputs, b, tail);
      if WellFormed(w, b) {
        AddBlocksEffect(w, AddBlock(w, s, b).state, rest);
        Regroup(s.blockchain, [b], tail);
      }
    }
  }

  /** Replacing installs the new chain up to its first block with data that does not parse, and the
      replay of exactly that; the whole chain if and only if all blocks but the last parse. */
  lemma ReplaceChainEffect(w: World, s: LedgerState, blocks: seq<Block>)
    ensures var r := ReplaceChain(w, s, blocks);
      && r.completed == AllWellFormed(w, blocks)
      && r.state.blockchain == Kept(w, blocks)
      && r.state.unspentOutputs == Replay(w, r.state.blockchain)
    ensures blocks != [] ==> (ReplaceChain(w, s, blocks).state.blockchain == blocks
                              <==> forall i :: 0 <= i < |blocks| - 1 ==> WellFormed(w, blocks[i]))
  {
    AddBlocksEffect(w, s.(blockchain := [], unspentOutputs := []), blocks);
    assert [] + blocks[..Pushed(w, blocks)] == blocks[..Pushed(w, blocks)];
    PushedAll(w, blocks);
    assert blocks[..|blocks|] == blocks;
  }

  lemma {:induction false} PushedAll(w: World, blocks: seq<Block>)
    ensures blocks != [] ==>
      (Pushed(w, blocks) == |blocks| <==> forall i :: 0 <= i < |blocks| - 1 ==> WellFormed(w, blocks[i]))
  {
    if |blocks| > 1 {
      var rest := blocks[1..];
      PushedAll(w, rest);
      assert forall i :: 0 <= i < |rest| ==> rest[i] == blocks[i + 1];
      assert forall i :: 0 < i < |blocks| ==> blocks[i] == rest[i - 1];
    }
  }

  // What every ledger keeps

  ghost predicate Consistent(w: World, s: LedgerState) {
    && IsValidChain(w, s.blockchain) && AllSelfConsistent(w, s.blockchain)
    && s.unspentOutputs == Replay(w, s.blockchain)
  }

  lemma ExtensionIsValid(w: World, chain: seq<Block>, b: Block)
    requires IsValidChain(w, chain) && AllSelfConsistent(w, chain)
    requires SelfConsistent(w, b) && Extends(Last(chain), b)
    ensures IsValidChain(w, chain + [b]) && AllSelfConsistent(w, chain + [b])
  {
    var longer := chain + [b];
    forall i | 0 < i < |longer|
      ensures IsNewBlockValid(w, longer[i], longer[i - 1])
    {
      if i < |chain| {
        assert longer[i] == chain[i] && longer[i - 1] == chain[i - 1];
      } else {
        assert longer[i] == b && longer[i - 1] == Last(chain);
      }
    }
  }

  lemma AddBlockKeepsConsistent(w: World, s: LedgerState, b: Block)
    requires Consistent(w, s) && SelfConsistent(w, b) && Extends(Last(s.blockchain), b)
    ensures Consistent(w, AddBlock(w, s, b).state)
  {
    ExtensionIsValid(w, s.blockchain, b);
    AddBlockEffect(w, s, b);
    ReplayAppend(w, [], s.blockchain, b);
    assert AddBlock(w, s, b).state.blockchain == s.blockchain + [b];
    assert AddBlock(w, s, b).state.unspentOutputs == Replay(w, s.blockchain + [b]);
  }

  lemma TryAddingKeepsConsistent(w: World, s: LedgerState, b: Block)
    requires Consistent(w, s) && SelfConsistent(w, b)
    ensures Consistent(w, TryAdding(w, s, b).state)
  {
    if Extends(Last(s.blockchain), b) {
      AddBlockKeepsConsistent(w, s, b);
    }
  }

  lemma ReplaceKeepsConsistent(w: World, s: LedgerState, blocks: seq<Block>)
    requires IsValidChain(w, blocks) && AllSelfConsistent(w, blocks)
    ensures Consistent(w, ReplaceChain(w, s, blocks).state)
  {
    ReplaceChainEffect(w, s, blocks);
    ValidPrefix(w, blocks, Pushed(w, blocks));
  }

  // The entries on the list of a chain were made at or below the index of its tip.
  lemma ListedIndices(w: World, s: LedgerState, e: UnspentOutput)
    requires Consistent(w, s) && s.blockchain[0].index + |s.blockchain| <= TWO_64 && e in s.unspentOutputs
    ensures e.transactionIndex <= Last(s.blockchain).index
  {
    var i := MadeAt(w, s.blockchain, e);
    IndexIsPosition(w, s.blockchain, |s.blockchain| - 1);
  }

  lemma IndicesBelowNext(w: World, s: LedgerState, b: Block)
    requires Consistent(w, s) && s.blockchain[0].index + |s.blockchain| < TWO_64 && Extends(Last(s.blockchain), b)
    ensures b.index == s.blockchain[0].index + |s.blockchain|
    ensures forall e :: e in s.unspentOutputs ==> e.transactionIndex < b.index
  {
    IndexIsPosition(w, s.blockchain, |s.blockchain| - 1);
    forall e | e in s.unspentOutputs
      ensures e.transactionIndex < b.index
    {
      ListedIndices(w, s, e);
    }
  }

  // Handlers

  // What a handler does: the ledger, the messages it sends to named peers, whether it stops the miner.
  datatype Reaction = Reaction(outcome: Outcome, sent: seq<(string, Message)>, interrupts: bool)

  function Quiet(s: LedgerState): Reaction {
    Reaction(Outcome(s, true), [], false)
  }

  function OnSendBlock(w: World, s: LedgerState, me: string, b: Block, sender: string): Reaction
    requires s.blockchain != []
  {
    var tip := Last(s.blockchain);
    if b.index <= tip.index then Quiet(s)
    else if b.index == Successor(tip.index) then
      if b.previousHash == tip.hash then
        var outcome := TryAdding(w, s, b);
        Reaction(outcome, [], outcome.completed)
      else Quiet(s)
    else Reaction(Outcome(s, true), [(sender, QueryBlockchain(me))], false)
  }

  function OnSendBlockchain(w: World, s: LedgerState, other: seq<Block>): (r: Reaction)
    ensures s.blockchain != [] ==> r.outcome.state.blockchain != []
  {
    if IsValidChain(w, other) && CumulativeDifficulty(w, other) > CumulativeDifficulty(w, s.blockchain) then
      Reaction(ReplaceChain(w, s, other), [], false)
    else Quiet(s)
  }

  function React(w: World, s: LedgerState, me: string, message: Message): (r: Reaction)
    requires s.blockchain != []
    ensures r.outcome.state.blockchain != []
  {
    match message
    case SendBlock(b, sender) => OnSendBlock(w, s, me, b, sender)
    case SendBlockchain(other, _) => OnSendBlockchain(w, s, other)
    case QueryLatestBlock(sender) => Quiet(s).(sent := [(sender, SendBlock(Last(s.blockchain), me))])
    case QueryBlockchain(sender) => Quiet(s).(sent := [(sender, SendBlockchain(s.blockchain, me))])
  }

  function Submit(w: World, s: LedgerState, t: Transaction): LedgerState {
    if IsTransactionValid(w, t, s.unspentOutputs) then s.(pendingTransactions := s.pendingTransactions + [t]) else s
  }

  // What a node makes of a posted value; one that does not read as a transaction changes nothing.
  function SubmitPosted(w: World, s: LedgerState, posted: Json): LedgerState {
    match JsonToTransaction(posted)
    case None => s
    case Some(t) => Submit(w, s, t)
  }

  /** The miner is stopped exactly when a received block has been added, data and all. */
  lemma InterruptsExactly(w: World, s: LedgerState, me: string, message: Message)
    requires s.blockchain != []
    ensures var r := React(w, s, me, message);
      r.interrupts <==> message.SendBlock? && r.outcome.completed
                        && r.outcome.state.blockchain == s.blockchain + [message.block]
  {
    match message
    case SendBlock(b, sender) => AddBlockEffect(w, s, b);
    case SendBlockchain(other, _) =>
    case _ =>
  }

  lemma OnSendBlockKeepsConsistent(w: World, s: LedgerState, me: string, b: Block, sender: string)
    requires Consistent(w, s) && SelfConsistent(w, b)
    ensures Consistent(w, OnSendBlock(w, s, me, b, sender).outcome.state)
  {
    TryAddingKeepsConsistent(w, s, b);
  }

  lemma OnSendBlockchainKeepsConsistent(w: World, s: LedgerState, other: seq<Block>)
    requires Consistent(w, s) && AllSelfConsistent(w, other)
    ensures Consistent(w, OnSendBlockchain(w, s, other).outcome.state)
  {
    if IsValidChain(w, other) {
      ReplaceKeepsConsistent(w, s, other);
    }
  }

  /** Every atomic handler keeps a ledger consistent. */
  lemma ReactKeepsConsistent(w: World, s: LedgerState, me: string, message: Message)
    requires Consistent(w, s) && CarriesSelfConsistentBlocks(w, Handle(message))
    ensures Consistent(w, React(w, s, me, message).outcome.state)
  {
    match message
    case SendBlock(b, sender) => OnSendBlockKeepsConsistent(w, s, me, b, sender);
    case SendBlockchain(other, _) => OnSendBlockchainKeepsConsistent(w, s, other);
    case _ =>
  }

  // The test on the inputs of a transaction is constantly false, so only its outputs count.
  method CollectPaying(transactions: seq<Transaction>, address: string) returns (paying: seq<Transaction>)
    ensures paying == Paying(transactions, address)
  {
    paying := [];
    for i := 0 to |transactions|
      invariant paying + Paying(transactions[i..], address) == Paying(transactions, address)
    {
      assert transactions[i..][1..] == transactions[i + 1..];
      if Pays(transactions[i], address) {
        paying := paying + [transactions[i]];
      }
    }
  }

  lemma {:induction false} HistoryAppend(w: World, chain: seq<Block>, b: Block, address: string)
    ensures History(w, chain + [b], address)
         == History(w, chain, address) + Paying(BlockTransactions(w, b), address)
  {
    if chain == [] {
      assert (chain + [b])[1..] == [];
    } else {
      assert (chain + [b])[1..] == chain[1..] + [b];
      HistoryAppend(w, chain[1..], b, address);
    }
  }

  lemma HistoryOfPrefix(w: World, chain: seq<Block>, i: nat, address: string)
    requires i < |chain|
    ensures History(w, chain[..i + 1], address)
         == History(w, chain[..i], address) + Paying(BlockTransactions(w, chain[i]), address)
  {
    assert chain[..i + 1] == chain[..i] + [chain[i]];
    HistoryAppend(w, chain[..i], chain[i], address);
  }

  method CollectHistory(w: World, chain: seq<Block>, address: string) returns (r: Option<seq<Transaction>>)
    ensures r == if AllWellFormed(w, chain) then Some(History(w, chain, address)) else None
  {
    var transactions: seq<Transaction> := [];
    for i := 0 to |chain|
      invariant transactions == History(w, chain[..i], address)
      invariant forall k :: 0 <= k < i ==> WellFormed(w, chain[k])
    {
      var blockTransactions := w.readTransactions(chain[i].data);
      if blockTransactions.None? {
        assert !WellFormed(w, chain[i]);
        return None;
      }
      assert WellFormed(w, chain[i]);
      var paying := CollectPaying(blockTransactions.value, address);
      HistoryOfPrefix(w, chain, i, address);
      transactions := transactions + paying;
    }
    assert chain[..|chain|] == chain;
    r := Some(transactions);
  }

  // The object

  class Node {
    const world: World
    const address: string
    var blockchain: seq<Block>
    var unspentOutputs: seq<UnspentOutput>
    var pendingTransactions: seq<Transaction>
    var peers: set<string>
    var sent: seq<(string, Message)>
    var minerInterrupted: bool

    ghost predicate Valid()
      reads this
    {
      Consistent(world, State())
    }

    function State(): LedgerState
      reads this
    {
      LedgerState(blockchain, unspentOutputs, pendingTransactions)
    }

    constructor (w: World, address: string)
      requires JsonCodec(w)
      ensures Valid() && world == w && this.address == address
      ensures State() == LedgerState([Genesis(w)], [], []) && peers == {} && sent == [] && !minerInterrupted
    {
      world := w;
      this.address := address;
      blockchain := [Genesis(w)];
      unspentOutputs, pendingTransactions := [], [];
      peers, sent, minerInterrupted := {}, [], false;
      new;
      GenesisCreatesNothing(w);
    }

    method AddBlockToBlockchain(b: Block) returns (completed: bool)
      modifies this`blockchain, this`unspentOutputs, this`pendingTransactions
      ensures Outcome(State(), completed) == AddBlock(world, old(State()), b)
    {
      blockchain := blockchain + [b];
      var transactions := world.readTransactions(b.data);
      if transactions.None? {
        return false;
      }
      var updated := UpdateUnspentOutputs(b.index, transactions.value, unspentOutputs);
      unspentOutputs := updated;
      var rest := RemoveConfirmed(pendingTransactions, transactions.value);
      pendingTransactions := rest;
      completed := true;
    }

    method TryAddingBlockToBlockchain(b: Block) returns (added: bool, completed: bool)
      requires Valid() && SelfConsistent(world, b)
      modifies this`blockchain, this`unspentOutputs, this`pendingTransactions
      ensures Valid() && Outcome(State(), completed) == TryAdding(world, old(State()), b)
      ensures added == (Extends(Last(old(blockchain)), b) && completed)
      ensures !completed ==> blockchain == old(blockchain) + [b]
    {
      TryAddingKeepsConsistent(world, State(), b);
      var latest := blockchain[|blockchain| - 1];
      if b.index == Successor(latest.index) && b.previousHash == latest.hash {
        completed := AddBlockToBlockchain(b);
        added := completed;
      } else {
        added, completed := false, true;
      }
    }

    method ReplaceBlockchain(newBlockchain: seq<Block>) returns (completed: bool)
      requires IsValidChain(world, newBlockchain) && AllSelfConsistent(world, newBlockchain)
      modifies this`blockchain, this`unspentOutputs, this`pendingTransactions
      ensures Valid() && Outcome(State(), completed) == ReplaceChain(world, old(State()), newBlockchain)
    {
      ReplaceKeepsConsistent(world, State(), newBlockchain);
      blockchain, unspentOutputs := [], [];
      ghost var goal := AddBlocks(world, State(), newBlockchain);
      assert newBlockchain[0..] == newBlockchain;
      for i := 0 to |newBlockchain|
        invariant AddBlocks(world, State(), newBlockchain[i..]) == goal
      {
        assert newBlockchain[i..][1..] == newBlockchain[i + 1..];
        completed := AddBlockToBlockchain(newBlockchain[i]);
        if !completed {
          return;
        }
      }
      completed := true;
    }

    method GetLatestBlock() returns (b: Block)
      requires blockchain != []
      ensures b == Last(blockchain)
    {
      b := blockchain[|blockchain| - 1];
    }

    method CalculateBalance(address: string) returns (balance: u64)
      ensures balance == Owned(unspentOutputs, address) % TWO_64
    {
      balance := 0;
      assert unspentOutputs[0..] == unspentOutputs;
      ghost var exact: nat := 0;
      for i := 0 to |unspentOutputs|
        invariant exact + Owned(unspentOutputs[i..], address) == Owned(unspentOutputs, address)
        invariant balance == exact % TWO_64
      {
        var unspentOutput := unspentOutputs[i];
        assert unspentOutputs[i..][1..] == unspentOutputs[i + 1..];
        if unspentOutput.address == address {
          balance := (balance + unspentOutput.amount) % TWO_64;
          exact := exact + unspentOutput.amount;
        }
      }
    }

    // None: the data of some block does not parse.
    method CalculateTransactions(address: string) returns (r: Option<seq<Transaction>>)
      ensures r == if AllWellFormed(world, blockchain) then Some(History(world, blockchain, address)) else None
    {
      r := CollectHistory(world, blockchain, address);
    }

    // Handlers: true unless an exception passed to the caller.

    ghost predicate Reacted(before: LedgerState, sentBefore: seq<(string, Message)>, interruptedBefore: bool,
                            peersBefore: set<string>, message: Message, completed: bool)
      requires before.blockchain != []
      reads this
    {
      var r := React(world, before, address, message);
      && Outcome(State(), completed) == r.outcome
      && sent == sentBefore + r.sent
      && minerInterrupted == (interruptedBefore || r.interrupts)
      && peers == peersBefore + {message.sender}
    }

    method ProcessSendBlockMessage(b: Block, sender: string) returns (completed: bool)
      requires Valid() && SelfConsistent(world, b)
      modifies this
      ensures Valid() && Reacted(old(State()), old(sent), old(minerInterrupted), old(peers), SendBlock(b, sender), completed)
    {
      peers := peers + {sender};
      completed := true;
      var latest := GetLatestBlock();
      if b.index <= latest.index {
      } else if b.index == Successor(latest.index) {
        if b.previousHash == latest.hash {
          var added: bool;
          added, completed := TryAddingBlockToBlockchain(b);
          if added {
            minerInterrupted := true;
          }
        }
      } else {
        sent := sent + [(sender, QueryBlockchain(address))];
      }
    }

    method ProcessSendBlockchainMessage(other: seq<Block>, sender: string) returns (completed: bool)
      requires Valid() && AllSelfConsistent(world, other)
      modifies this
      ensures Valid()
      ensures Reacted(old(State()), old(sent), old(minerInterrupted), old(peers), SendBlockchain(other, sender), completed)
    {
      peers := peers + {sender};
      completed := true;
      var valid := IsBlockchainValid(world, other);
      if valid {
        var otherWork := ComputeCumulativeDifficulty(world, other);
        var thisWork := ComputeCumulativeDifficulty(world, blockchain);
        if otherWork > thisWork {
          completed := ReplaceBlockchain(other);
        }
      }
    }

    method ProcessQueryLatestBlockMessage(sender: string)
      requires Valid()
      modifies this`peers, this`sent
      ensures Valid() && Reacted(old(State()), old(sent), old(minerInterrupted), old(peers), QueryLatestBlock(sender), true)
    {
      peers := peers + {sender};
      var latest := GetLatestBlock();
      sent := sent + [(sender, SendBlock(latest, address))];
    }

    method ProcessQueryBlockchainMessage(sender: string)
      requires Valid()
      modifies this`peers, this`sent
      ensures Valid() && Reacted(old(State()), old(sent), old(minerInterrupted), old(peers), QueryBlockchain(sender), true)
    {
      peers := peers + {sender};
      sent := sent + [(sender, SendBlockchain(blockchain, address))];
    }

    method SubmitTransaction(t: Transaction) returns (accepted: bool)
      requires Valid()
      modifies this`pendingTransactions
      ensures Valid() && State() == Submit(world, old(State()), t)
      ensures accepted <==> IsTransactionValid(world, t, unspentOutputs)
    {
      accepted := IsTransactionValid(world, t, unspentOutputs);
      if accepted {
        pendingTransactions := pendingTransactions + [t];
      }
    }

    // The new messages are one to each peer, and each is the block.
    ghost predicate SentToPeers(sentBefore: seq<(string, Message)>, b: Block)
      reads this
    {
      && sentBefore <= sent && |sent| == |sentBefore| + |peers|
      && (forall m :: m in sent[|sentBefore|..] ==> m.0 in peers && m.1 == SendBlock(b, address))
      && forall p :: p in peers ==> (p, SendBlock(b, address)) in sent[|sentBefore|..]
    }

    method SendBlockToPeers(b: Block)
      modifies this`sent
      ensures SentToPeers(old(sent), b)
    {
      ghost var before := sent;
      var messages: seq<(string, Message)> := [];
      var left := peers;
      while left != {}
        invariant left <= peers && |messages| + |left| == |peers|
        invariant forall m :: m in messages ==> m.0 in peers && m.1 == SendBlock(b, address)
        invariant forall p :: p in peers - left ==> (p, SendBlock(b, address)) in messages
        decreases left
      {
        var peer :| peer in left;
        messages := messages + [(peer, SendBlock(b, address))];
        left := left - {peer};
      }
      sent := sent + messages;
      assert sent[|before|..] == messages;
    }

    // One round of the mining loop, given what the miner returned; an added block goes to all peers.
    method MiningRound(nextBlock: Option<Block>) returns (added: bool, completed: bool)
      requires Valid() && (nextBlock.Some? ==> SelfConsistent(world, nextBlock.value))
      modifies this`blockchain, this`unspentOutputs, this`pendingTransactions, this`sent
      ensures Valid()
      ensures Outcome(State(), completed)
           == if nextBlock.Some? then TryAdding(world, old(State()), nextBlock.value) else Outcome(old(State()), true)
      ensures added <==> nextBlock.Some? && completed && Extends(Last(old(blockchain)), nextBlock.value)
      ensures if added then SentToPeers(old(sent), nextBlock.value) else sent == old(sent)
    {
      added, completed := false, true;
      if nextBlock.Some? {
        added, completed := TryAddingBlockToBlockchain(nextBlock.value);
        if added {
          SendBlockToPeers(nextBlock.value);
        }
      }
    }
  }

  lemma GenesisCreatesNothing(w: World)
    requires JsonCodec(w)
    ensures WellFormed(w, Genesis(w)) && BlockTransactions(w, Genesis(w)) == []
    ensures Consistent(w, LedgerState([Genesis(w)], [], []))
  {
    assert JsonToTransactions(Arr([])) == Some([]);
    var b := Genesis(w);
    assert BlockTransactions(w, b) == [];
    assert [b][1..] == [];
    assert Replay(w, [b]) == ReplayFrom(w, Updated(b.index, [], []), [b][1..]);
  }
}
