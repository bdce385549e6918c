/** A network of nodes that start from genesis and gossip over an unreliable wire. */
module Network {
  import opened Basics
  import opened JsonValues
  import opened Environment
  import opened Entities
  import opened Transactions
  import opened Blocks
  import opened Encodings
  import opened Wire
  import opened Ledger
  import opened Nodes
  import opened Mining

  datatype Packet = Packet(to: string, message: Message)

  // What a node last asked its miner for: a block on a tip, with the pool of that moment.
  datatype Request = Request(tip: Block, pool: seq<Transaction>)

  datatype Net = Net(nodes: map<string, LedgerState>, mining: map<string, Request>, inFlight: multiset<Packet>)

  datatype Action =
    | Deliver(packet: Packet)
    | Lose(packet: Packet)
    | Duplicate(packet: Packet)
    | Connect(from: string, to: string)
    | Post(at: string, posted: Json)
    | StartMining(at: string)
    | Mine(at: string, publicKey: string, timestamp: int, difficulty: u16, nonce: u64, receivers: seq<string>)

  predicate Running(net: Net) {
    forall a :: a in net.nodes ==> net.nodes[a].blockchain != []
  }

  function Packets(sent: seq<(string, Message)>): multiset<Packet> {
    if sent == [] then multiset{} else multiset{Packet(sent[0].0, sent[0].1)} + Packets(sent[1..])
  }

  function Broadcast(receivers: seq<string>, message: Message): seq<(string, Message)> {
    seq(|receivers|, i requires 0 <= i < |receivers| => (receivers[i], message))
  }

  // A packet is written as text, and what is read from the text is handled; text that is refused, and
  // messages of other names, change no ledger.
  function Arrive(w: World, net: Net, packet: Packet): Net
    requires Running(net) && packet.to in net.nodes
  {
    var left := net.inFlight - multiset{packet};
    match ProcessMessage(w, CreateMessage(w, packet.message))
    case Handle(message) =>
      var r := React(w, net.nodes[packet.to], packet.to, message);
      net.(nodes := net.nodes[packet.to := r.outcome.state], inFlight := left + Packets(r.sent))
    case _ => net.(inFlight := left)
  }

  // The block the miner finds for a request, at some time, of some difficulty, with some nonce.
  function Found(w: World, request: Request, publicKey: string, timestamp: int, difficulty: u16, nonce: u64): Block {
    Candidate(w, publicKey, request.tip, request.pool, timestamp, difficulty, nonce)
  }

  // A node tries to add a block its miner made, from whatever tip, and tells the receivers once it is added.
  function MinedAt(w: World, net: Net, at: string, b: Block, receivers: seq<string>): Net
    requires Running(net) && at in net.nodes
  {
    var s := net.nodes[at];
    var outcome := TryAdding(w, s, b);
    var told := if Extends(Last(s.blockchain), b) && outcome.completed then receivers else [];
    Net(net.nodes[at := outcome.state], net.mining - {at}, net.inFlight + Packets(Broadcast(told, SendBlock(b, at))))
  }

  // Actions that are not possible change nothing.
  function Next(w: World, net: Net, action: Action): (r: Net)
    requires Running(net)
    ensures Running(r)
  {
    match action
    case Deliver(packet) =>
      if packet in net.inFlight && packet.to in net.nodes then Arrive(w, net, packet) else net
    case Lose(packet) => net.(inFlight := net.inFlight - multiset{packet})
    case Duplicate(packet) =>
      if packet in net.inFlight then net.(inFlight := net.inFlight + multiset{packet}) else net
    case Connect(from, to) =>
      if from in net.nodes then net.(inFlight := net.inFlight + multiset{Packet(to, QueryLatestBlock(from))}) else net
    case Post(at, posted) =>
      if at in net.nodes then net.(nodes := net.nodes[at := SubmitPosted(w, net.nodes[at], posted)]) else net
    case StartMining(at) =>
      if at in net.nodes then
        var s := net.nodes[at];
        net.(mining := net.mining[at := Request(Last(s.blockchain), s.pendingTransactions)])
      else net
    case Mine(at, publicKey, timestamp, difficulty, nonce, receivers) =>
      if at in net.nodes && at in net.mining then
        MinedAt(w, net, at, Found(w, net.mining[at], publicKey, timestamp, difficulty, nonce), receivers)
      else net
  }

  // What every node, miner and packet keeps, after n blocks have been mined: as long as n fits 32 bits all
  // data parses and no index is beyond n

  ghost predicate GoodBlock(w: World, b: Block, n: nat) {
    SelfConsistent(w, b) && (n < TWO_32 ==> WellFormed(w, b) && b.index <= n)
  }

  ghost predicate GoodChain(w: World, chain: seq<Block>, n: nat) {
    && IsValidChain(w, chain) && chain[0] == Genesis(w)
    && forall i :: 0 <= i < |chain| ==> GoodBlock(w, chain[i], n)
  }

  ghost predicate GoodPool(pool: seq<Transaction>) {
    forall t :: t in pool ==> SmallIndices(t)
  }

  ghost predicate GoodLedger(w: World, s: LedgerState, n: nat) {
    GoodChain(w, s.blockchain, n) && s.unspentOutputs == Replay(w, s.blockchain) && GoodPool(s.pendingTransactions)
  }

  ghost predicate GoodRequest(request: Request, n: nat) {
    GoodPool(request.pool) && (n < TWO_32 ==> request.tip.index <= n)
  }

  ghost predicate GoodMessage(w: World, message: Message, n: nat) {
    match message
    case SendBlock(b, _) => GoodBlock(w, b, n)
    case SendBlockchain(chain, _) => GoodChain(w, chain, n)
    case _ => true
  }

  ghost predicate GoodNodes(w: World, nodes: map<string, LedgerState>, n: nat) {
    forall a :: a in nodes ==> GoodLedger(w, nodes[a], n)
  }

  ghost predicate GoodMining(mining: map<string, Request>, n: nat) {
    forall a :: a in mining ==> GoodRequest(mining[a], n)
  }

  ghost predicate GoodPackets(w: World, packets: multiset<Packet>, n: nat) {
    forall p :: p in packets ==> GoodMessage(w, p.message, n)
  }

  ghost predicate GoodNet(w: World, net: Net, n: nat) {
    GoodNodes(w, net.nodes, n) && GoodMining(net.mining, n) && GoodPackets(w, net.inFlight, n)
  }

  // What a handler may be given: a good block, or a chain that is good if it is valid.
  ghost predicate Acceptable(w: World, message: Message, n: nat) {
    match message
    case SendBlock(b, _) => GoodBlock(w, b, n)
    case SendBlockchain(chain, _) => IsValidChain(w, chain) ==> GoodChain(w, chain, n)
    case _ => true
  }

  lemma AddBlockKeepsPool(w: World, s: LedgerState, b: Block)
    requires GoodPool(s.pendingTransactions)
    ensures GoodPool(AddBlock(w, s, b).state.pendingTransactions)
  {
    AddBlockEffect(w, s, b);
    forall p | p in AddBlock(w, s, b).state.pendingTransactions
      ensures SmallIndices(p)
    {
      UnconfirmedMembers(s.pendingTransactions, BlockTransactions(w, b), p);
    }
  }

  lemma {:induction false} AddBlocksKeepPool(w: World, s: LedgerState, blocks: seq<Block>)
    requires GoodPool(s.pendingTransactions)
    ensures GoodPool(AddBlocks(w, s, blocks).state.pendingTransactions)
    decreases |blocks|
  {
    if blocks != [] {
      AddBlockKeepsPool(w, s, blocks[0]);
      if AddBlock(w, s, blocks[0]).completed {
        AddBlocksKeepPool(w, AddBlock(w, s, blocks[0]).state, blocks[1..]);
      }
    }
  }

  lemma TryAddingKeepsGood(w: World, s: LedgerState, b: Block, n: nat)
    requires GoodLedger(w, s, n) && GoodBlock(w, b, n)
    ensures GoodLedger(w, TryAdding(w, s, b).state, n)
  {
    TryAddingKeepsConsistent(w, s, b);
    AddBlockEffect(w, s, b);
    AddBlockKeepsPool(w, s, b);
  }

  lemma ReplaceKeepsGood(w: World, s: LedgerState, chain: seq<Block>, n: nat)
    requires GoodChain(w, chain, n) && GoodPool(s.pendingTransactions)
    ensures GoodLedger(w, ReplaceChain(w, s, chain).state, n)
    ensures n < TWO_32 ==> ReplaceChain(w, s, chain).state.blockchain == chain
  {
    ReplaceChainEffect(w, s, chain);
    ValidPrefix(w, chain, Pushed(w, chain));
    AddBlocksKeepPool(w, s.(blockchain := [], unspentOutputs := []), chain);
  }

  lemma ReactKeepsGood(w: World, s: LedgerState, me: string, message: Message, n: nat)
    requires GoodLedger(w, s, n) && Acceptable(w, message, n)
    ensures var r := React(w, s, me, message);
      GoodLedger(w, r.outcome.state, n) && forall m :: m in r.sent ==> GoodMessage(w, m.1, n)
  {
    match message
    case SendBlock(b, _) => TryAddingKeepsGood(w, s, b, n);
    case SendBlockchain(chain, _) =>
      if IsValidChain(w, chain) {
        ReplaceKeepsGood(w, s, chain, n);
      }
    case _ =>
  }

  lemma CutIsAcceptable(w: World, message: Message, n: nat)
    requires GoodMessage(w, message, n)
    ensures Destination(w, message).Handle? ==> Acceptable(w, Destination(w, message).message, n)
  {
    match message
    case SendBlock(b, _) =>
    case SendBlockchain(chain, _) => ValidOnlyUncut(w, chain);
    case _ =>
  }

  /** What is read from the text of a good message is acceptable to its handler. */
  lemma ReadIsAcceptable(w: World, message: Message, n: nat)
    requires TimeCodec(w) && JsonCodec(w) && GoodMessage(w, message, n)
    ensures var call := ProcessMessage(w, CreateMessage(w, message));
      call.Handle? ==> Acceptable(w, call.message, n)
  {
    MessageOverWire(w, message);
    CutIsAcceptable(w, message, n);
  }

  lemma {:induction false} PacketMessages(sent: seq<(string, Message)>, p: Packet)
    requires p in Packets(sent)
    ensures (p.to, p.message) in sent
  {
    if p != Packet(sent[0].0, sent[0].1) {
      PacketMessages(sent[1..], p);
    }
  }

  lemma SentPacketsGood(w: World, sent: seq<(string, Message)>, n: nat)
    requires forall m :: m in sent ==> GoodMessage(w, m.1, n)
    ensures GoodPackets(w, Packets(sent), n)
  {
    forall p | p in Packets(sent)
      ensures GoodMessage(w, p.message, n)
    {
      PacketMessages(sent, p);
    }
  }

  lemma DeliverKeepsGood(w: World, net: Net, packet: Packet, n: nat)
    requires TimeCodec(w) && JsonCodec(w) && GoodNet(w, net, n) && Running(net)
    ensures GoodNet(w, Next(w, net, Deliver(packet)), n)
  {
    if packet in net.inFlight && packet.to in net.nodes {
      ReadIsAcceptable(w, packet.message, n);
      var call := ProcessMessage(w, CreateMessage(w, packet.message));
      if call.Handle? {
        ReactKeepsGood(w, net.nodes[packet.to], packet.to, call.message, n);
        SentPacketsGood(w, React(w, net.nodes[packet.to], packet.to, call.message).sent, n);
      }
    }
  }

  /** A found block has data that parses as long as its index and the indices of the pool fit 32 bits. */
  lemma FoundIsGood(w: World, request: Request, publicKey: string, timestamp: int, difficulty: u16, nonce: u64, n: nat)
    requires JsonCodec(w) && GoodRequest(request, n)
    ensures var b := Found(w, request, publicKey, timestamp, difficulty, nonce);
      && GoodBlock(w, b, n + 1)
      && b.timestamp == timestamp && b.difficulty == difficulty && b.nonce == nonce
      && (WellFormed(w, b) <==> b.index < TWO_32)
      && (WellFormed(w, b) ==> BlockTransactions(w, b) == [CoinbaseTransaction(w, b.index, publicKey)] + request.pool)
  {
    var index := Successor(request.tip.index);
    var coinbase := CoinbaseTransaction(w, index, publicKey);
    TransactionsRoundTrip([coinbase] + request.pool);
    assert coinbase in [coinbase] + request.pool;
    assert SmallIndices(coinbase) <==> coinbase.inputs[0].transactionOutputIndex < TWO_32;
  }

  lemma ChainLater(w: World, chain: seq<Block>, n: nat)
    requires GoodChain(w, chain, n)
    ensures GoodChain(w, chain, n + 1)
  {
  }

  lemma NetLater(w: World, net: Net, n: nat)
    requires GoodNet(w, net, n)
    ensures GoodNet(w, net, n + 1)
  {
    forall a | a in net.nodes
      ensures GoodLedger(w, net.nodes[a], n + 1)
    {
      ChainLater(w, net.nodes[a].blockchain, n);
    }
    forall p | p in net.inFlight
      ensures GoodMessage(w, p.message, n + 1)
    {
      if p.message.SendBlockchain? {
        ChainLater(w, p.message.blockchain, n);
      }
    }
  }

  lemma MinedAtKeepsGood(w: World, net: Net, at: string, b: Block, receivers: seq<string>, n: nat)
    requires GoodNet(w, net, n) && Running(net) && at in net.nodes && GoodBlock(w, b, n)
    ensures GoodNet(w, MinedAt(w, net, at, b, receivers), n)
  {
    TryAddingKeepsGood(w, net.nodes[at], b, n);
    SentPacketsGood(w, Broadcast(receivers, SendBlock(b, at)), n);
    SentPacketsGood(w, Broadcast([], SendBlock(b, at)), n);
  }

  lemma PostKeepsGood(w: World, net: Net, at: string, posted: Json, n: nat)
    requires GoodNet(w, net, n) && Running(net)
    ensures GoodNet(w, Next(w, net, Post(at, posted)), n)
  {
    if at in net.nodes {
      ReadIndicesSmall(posted);
      assert GoodLedger(w, SubmitPosted(w, net.nodes[at], posted), n);
    }
  }

  lemma MineKeepsGood(w: World, net: Net, action: Action, n: nat)
    requires JsonCodec(w) && GoodNet(w, net, n) && Running(net) && action.Mine?
    ensures GoodNet(w, Next(w, net, action), n + 1)
  {
    var Mine(at, publicKey, timestamp, difficulty, nonce, receivers) := action;
    NetLater(w, net, n);
    if at in net.nodes && at in net.mining {
      FoundIsGood(w, net.mining[at], publicKey, timestamp, difficulty, nonce, n);
      MinedAtKeepsGood(w, net, at, Found(w, net.mining[at], publicKey, timestamp, difficulty, nonce), receivers, n + 1);
    }
  }

  function MinedBy(action: Action): nat {
    if action.Mine? then 1 else 0
  }

  function Mined(actions: seq<Action>): nat {
    if actions == [] then 0 else MinedBy(actions[0]) + Mined(actions[1..])
  }

  lemma QuietKeepsGood(w: World, net: Net, action: Action, n: nat)
    requires GoodNet(w, net, n) && Running(net)
    requires !action.Deliver? && !action.Post? && !action.Mine?
    ensures GoodNet(w, Next(w, net, action), n)
  {
  }

  /** Any action, delivery in any order and loss and duplication included, keeps the network good. */
  lemma NextKeepsGood(w: World, net: Net, action: Action, n: nat)
    requires TimeCodec(w) && JsonCodec(w) && GoodNet(w, net, n) && Running(net)
    ensures GoodNet(w, Next(w, net, action), n + MinedBy(action))
  {
    match action
    case Deliver(packet) => DeliverKeepsGood(w, net, packet, n);
    case Post(at, posted) => PostKeepsGood(w, net, at, posted, n);
    case Mine(_, _, _, _, _, _) => MineKeepsGood(w, net, action, n);
    case _ => QuietKeepsGood(w, net, action, n);
  }

  function Start(w: World, addresses: set<string>): Net {
    Net(map a | a in addresses :: LedgerState([Genesis(w)], [], []), map[], multiset{})
  }

  function Execute(w: World, net: Net, actions: seq<Action>): (r: Net)
    requires Running(net)
    ensures Running(r)
    decreases |actions|
  {
    if actions == [] then net else Execute(w, Next(w, net, actions[0]), actions[1..])
  }

  lemma ExecuteFirst(w: World, net: Net, actions: seq<Action>, n: nat)
    requires Running(net) && actions != []
    ensures Execute(w, net, actions) == Execute(w, Next(w, net, actions[0]), actions[1..])
    ensures n + Mined(actions) == n + MinedBy(actions[0]) + Mined(actions[1..])
  {
  }

  /** Every run keeps the network good, for as many blocks more as it mines. */
  lemma {:induction false} ExecuteKeepsGood(w: World, net: Net, actions: seq<Action>, n: nat)
    requires TimeCodec(w) && JsonCodec(w) && GoodNet(w, net, n) && Running(net)
    ensures GoodNet(w, Execute(w, net, actions), n + Mined(actions))
    decreases |actions|
  {
    if actions != [] {
      ExecuteFirst(w, net, actions, n);
      NextKeepsGood(w, net, actions[0], n);
      ExecuteKeepsGood(w, Next(w, net, actions[0]), actions[1..], n + MinedBy(actions[0]));
    }
  }

  lemma StartIsGood(w: World, addresses: set<string>)
    requires JsonCodec(w)
    ensures GoodNet(w, Start(w, addresses), 0) && Start(w, addresses).nodes.Keys == addresses
  {
    GenesisCreatesNothing(w);
  }

  lemma NextKeepsNodes(w: World, net: Net, action: Action)
    requires Running(net)
    ensures Next(w, net, action).nodes.Keys == net.nodes.Keys
  {
  }

  // Nodes neither come nor go.
  lemma {:induction false} ExecuteKeepsNodes(w: World, net: Net, actions: seq<Action>)
    requires Running(net)
    ensures Execute(w, net, actions).nodes.Keys == net.nodes.Keys
    decreases |actions|
  {
    if actions != [] {
      NextKeepsNodes(w, net, actions[0]);
      ExecuteKeepsNodes(w, Next(w, net, actions[0]), actions[1..]);
    }
  }

  /** In every run of the network, every node's chain and every chain in flight is valid and starts with
      genesis, and every node's unspent outputs are those its chain declares. */
  lemma EveryRunIsGood(w: World, addresses: set<string>, actions: seq<Action>)
    requires TimeCodec(w) && JsonCodec(w)
    ensures var net := Execute(w, Start(w, addresses), actions);
      && net.nodes.Keys == addresses
      && (forall a :: a in net.nodes ==>
            IsValidChain(w, net.nodes[a].blockchain) && net.nodes[a].blockchain[0] == Genesis(w)
            && net.nodes[a].unspentOutputs == Replay(w, net.nodes[a].blockchain))
      && (forall p :: p in net.inFlight && p.message.SendBlockchain? ==>
            IsValidChain(w, p.message.blockchain) && p.message.blockchain[0] == Genesis(w))
  {
    StartIsGood(w, addresses);
    ExecuteKeepsNodes(w, Start(w, addresses), actions);
    ExecuteKeepsGood(w, Start(w, addresses), actions, 0);
  }

  /** In every run that mines fewer than 2^32 blocks, all data at a node or in flight parses, and the network
      is good in the sense the statements about deliveries below ask for. */
  lemma EveryRunIsReadable(w: World, addresses: set<string>, actions: seq<Action>)
    requires TimeCodec(w) && JsonCodec(w) && Mined(actions) < TWO_32
    ensures var net := Execute(w, Start(w, addresses), actions);
      && GoodNet(w, net, Mined(actions))
      && (forall a :: a in net.nodes ==> AllWellFormed(w, net.nodes[a].blockchain))
      && (forall p :: p in net.inFlight && p.message.SendBlockchain? ==> AllWellFormed(w, p.message.blockchain))
      && (forall p :: p in net.inFlight && p.message.SendBlock? ==> WellFormed(w, p.message.block))
  {
    StartIsGood(w, addresses);
    ExecuteKeepsGood(w, Start(w, addresses), actions, 0);
  }

  predicate ShortMessage(message: Message) {
    match message
    case SendBlock(b, _) => b.index < TWO_16
    case SendBlockchain(chain, _) => |chain| <= TWO_16
    case _ => true
  }

  // A short message crosses as it is; a longer one is not mistaken for another, short of a hash collision.
  ghost predicate Crosses(w: World, message: Message, call: Call) {
    if ShortMessage(message) then call == Handle(message)
    else if message.SendBlockchain? then
      call == Invalid || (call.Handle? && call.message.SendBlockchain? && !IsValidChain(w, call.message.blockchain))
    else
      call == Invalid || Collision(w, Preimage(w, message.block), Preimage(w, Cut(message.block)))
  }

  lemma CutCrosses(w: World, message: Message, n: nat)
    requires GoodMessage(w, message, n)
    ensures Crosses(w, message, Destination(w, message))
  {
    match message
    case SendBlock(b, _) =>
      if b.index < TWO_16 {
        assert Cut(b) == b;
      } else if SelfConsistent(w, Cut(b)) && Preimage(w, b) == Preimage(w, Cut(b)) {
        PreimageDeterminesIndex(w, b, Cut(b));
      }
    case SendBlockchain(chain, _) => ValidOnlyUncut(w, chain);
    case _ =>
  }

  lemma GoodMessageCrosses(w: World, message: Message, n: nat)
    requires TimeCodec(w) && JsonCodec(w) && GoodMessage(w, message, n)
    ensures Crosses(w, message, ProcessMessage(w, CreateMessage(w, message)))
  {
    MessageOverWire(w, message);
    CutCrosses(w, message, n);
  }

  /** In every run of the network, every packet in flight reaches, as text, the handler its message is
      meant for, with the same payload and sender, as long as indices fit 16 bits. Beyond that a chain is
      refused or not valid where it arrives, and a block is refused or exhibits a collision. */
  lemma EveryPacketCrosses(w: World, addresses: set<string>, actions: seq<Action>, p: Packet)
    requires TimeCodec(w) && JsonCodec(w)
    requires p in Execute(w, Start(w, addresses), actions).inFlight
    ensures Crosses(w, p.message, ProcessMessage(w, CreateMessage(w, p.message)))
  {
    StartIsGood(w, addresses);
    ExecuteKeepsGood(w, Start(w, addresses), actions, 0);
    GoodMessageCrosses(w, p.message, Mined(actions));
  }

  // A short message is handled where it arrives as it was sent.
  lemma ShortArrives(w: World, net: Net, packet: Packet, n: nat)
    requires TimeCodec(w) && JsonCodec(w) && GoodNet(w, net, n) && Running(net)
    requires packet in net.inFlight && packet.to in net.nodes && ShortMessage(packet.message)
    ensures var r := React(w, net.nodes[packet.to], packet.to, packet.message);
      Next(w, net, Deliver(packet)) == net.(nodes := net.nodes[packet.to := r.outcome.state],
                                            inFlight := net.inFlight - multiset{packet} + Packets(r.sent))
  {
    GoodMessageCrosses(w, packet.message, n);
  }

  lemma PacketsOfOne(to: string, message: Message)
    ensures Packets([(to, message)]) == multiset{Packet(to, message)} && Packets([]) == multiset{}
  {
    assert [(to, message)][1..] == [];
  }

  lemma OneOffer(w: World, s: LedgerState, chain: seq<Block>, n: nat)
    requires GoodLedger(w, s, n) && Work(s.blockchain) <= INT_MAX
    requires GoodChain(w, chain, n) && Work(chain) <= INT_MAX && n < TWO_32
    ensures var r := OnSendBlockchain(w, s, chain).outcome.state;
      r.unspentOutputs == Replay(w, r.blockchain)
      && r.blockchain == if Work(chain) > Work(s.blockchain) then chain else s.blockchain
  {
    CumulativeDifficultyExact(w, chain);
    CumulativeDifficultyExact(w, s.blockchain);
    ReplaceKeepsGood(w, s, chain, n);
  }

  // A chain on its way to a node, short enough to arrive and of a work an int can hold.
  ghost predicate ChainFor(net: Net, packet: Packet) {
    && packet.message.SendBlockchain? && packet.to in net.nodes
    && |packet.message.blockchain| <= TWO_16 && Work(packet.message.blockchain) <= INT_MAX
    && Work(net.nodes[packet.to].blockchain) <= INT_MAX
  }

  // What the delivery of a chain does to the whole network.
  lemma ChainArrives(w: World, net: Net, packet: Packet, n: nat)
    requires TimeCodec(w) && JsonCodec(w) && GoodNet(w, net, n) && Running(net) && n < TWO_32
    requires packet in net.inFlight && ChainFor(net, packet)
    ensures var chain, s := packet.message.blockchain, net.nodes[packet.to];
            var after := Next(w, net, Deliver(packet));
      && after.nodes == net.nodes[packet.to := after.nodes[packet.to]]
      && after.nodes[packet.to].blockchain == (if Work(chain) > Work(s.blockchain) then chain else s.blockchain)
      && after.nodes[packet.to].unspentOutputs == Replay(w, after.nodes[packet.to].blockchain)
      && after.inFlight == net.inFlight - multiset{packet}
  {
    ShortArrives(w, net, packet, n);
    OneOffer(w, net.nodes[packet.to], packet.message.blockchain, n);
    PacketsOfOne(packet.to, packet.message);
  }

  /** Delivering a chain of strictly greater work makes the receiver's chain that chain, and its unspent
      outputs those of any node that holds it. */
  lemma HeavierChainIsInstalled(w: World, net: Net, packet: Packet, n: nat)
    requires TimeCodec(w) && JsonCodec(w) && GoodNet(w, net, n) && Running(net) && n < TWO_32
    requires packet in net.inFlight && ChainFor(net, packet)
    requires Work(net.nodes[packet.to].blockchain) < Work(packet.message.blockchain)
    ensures var after := Next(w, net, Deliver(packet));
      && packet.to in after.nodes
      && after.nodes[packet.to].blockchain == packet.message.blockchain
      && forall a :: a in net.nodes && net.nodes[a].blockchain == packet.message.blockchain ==>
           after.nodes[packet.to].unspentOutputs == net.nodes[a].unspentOutputs
  {
    ChainArrives(w, net, packet, n);
  }

  lemma InvalidArrives(w: World, net: Net, packet: Packet)
    requires Running(net) && packet.to in net.nodes
    requires var call := ProcessMessage(w, CreateMessage(w, packet.message));
      call.Handle? ==> call.message.SendBlockchain? && !IsValidChain(w, call.message.blockchain)
    ensures Arrive(w, net, packet) == net.(inFlight := net.inFlight - multiset{packet})
  {
    var call := ProcessMessage(w, CreateMessage(w, packet.message));
    if call.Handle? {
      assert React(w, net.nodes[packet.to], packet.to, call.message) == Quiet(net.nodes[packet.to]);
      assert net.nodes[packet.to := net.nodes[packet.to]] == net.nodes && Packets([]) == multiset{};
    }
  }

  /** A chain of more than 2^16 blocks is dropped where it arrives, whatever its work: nothing else changes. */
  lemma LongChainIsIgnored(w: World, net: Net, packet: Packet, n: nat)
    requires TimeCodec(w) && JsonCodec(w) && GoodNet(w, net, n) && Running(net)
    requires packet in net.inFlight && packet.message.SendBlockchain? && |packet.message.blockchain| > TWO_16
    ensures Next(w, net, Deliver(packet)).nodes == net.nodes
    ensures packet.to in net.nodes ==>
      Next(w, net, Deliver(packet)) == net.(inFlight := net.inFlight - multiset{packet})
  {
    GoodMessageCrosses(w, packet.message, n);
    if packet.to in net.nodes {
      InvalidArrives(w, net, packet);
    }
  }

  // Deliveries one after the other

  function Deliveries(packets: seq<Packet>): (actions: seq<Action>)
    ensures |actions| == |packets|
  {
    seq(|packets|, i requires 0 <= i < |packets| => Deliver(packets[i]))
  }

  lemma DeliveriesFirst(packets: seq<Packet>)
    requires packets != []
    ensures Deliveries(packets) != [] && Deliveries(packets)[0] == Deliver(packets[0])
    ensures Deliveries(packets)[1..] == Deliveries(packets[1..])
  {
  }

  lemma ExecuteDeliveries(w: World, net: Net, packets: seq<Packet>)
    requires Running(net) && packets != []
    ensures Execute(w, net, Deliveries(packets))
         == Execute(w, Next(w, net, Deliver(packets[0])), Deliveries(packets[1..]))
  {
    DeliveriesFirst(packets);
    ExecuteFirst(w, net, Deliveries(packets), 0);
  }

  // Catching up

  lemma ChainLength(w: World, chain: seq<Block>, n: nat)
    requires GoodChain(w, chain, n) && n < TWO_32
    ensures |chain| <= n + 1 && Last(chain).index == |chain| - 1
  {
    if |chain| > n + 1 {
      IndexIsPosition(w, chain, n + 1);
      assert false;
    }
    IndexIsPosition(w, chain, |chain| - 1);
  }

  // How a node reacts to the tip of another chain.
  lemma ReactToTip(w: World, s: LedgerState, me: string, ahead: seq<Block>, peer: string, n: nat)
    requires GoodLedger(w, s, n) && GoodChain(w, ahead, n) && n < TWO_32
    ensures var r := React(w, s, me, SendBlock(Last(ahead), peer));
      && r.sent == (if |s.blockchain| + 1 < |ahead| then [(peer, QueryBlockchain(me))] else [])
      && if |ahead| == |s.blockchain| + 1 && Last(ahead).previousHash == Last(s.blockchain).hash
         then r.outcome.state.blockchain == s.blockchain + [Last(ahead)]
         else r.outcome.state == s
  {
    ChainLength(w, s.blockchain, n);
    ChainLength(w, ahead, n);
    AddBlockEffect(w, s, Last(ahead));
  }

  // The two packets of a node that holds the chain: its tip, and a question for the rest.
  function TipTo(me: string, chain: seq<Block>, peer: string): Packet
    requires chain != []
  {
    Packet(me, SendBlock(Last(chain), peer))
  }

  function Question(peer: string, me: string): Packet {
    Packet(peer, QueryBlockchain(me))
  }

  lemma TipReaction(w: World, net: Net, me: string, ahead: seq<Block>, peer: string, n: nat, after: Net)
    requires GoodNet(w, net, n) && Running(net) && n < TWO_32 && me in net.nodes && GoodChain(w, ahead, n)
    requires var r := React(w, net.nodes[me], me, SendBlock(Last(ahead), peer));
      after == net.(nodes := net.nodes[me := r.outcome.state],
                    inFlight := net.inFlight - multiset{TipTo(me, ahead, peer)} + Packets(r.sent))
    ensures var behind := net.nodes[me].blockchain;
      && after.inFlight == net.inFlight - multiset{TipTo(me, ahead, peer)}
                           + (if |behind| + 1 < |ahead| then multiset{Question(peer, me)} else multiset{})
      && if |ahead| == |behind| + 1 && Last(ahead).previousHash == Last(behind).hash
         then after.nodes == net.nodes[me := after.nodes[me]] && after.nodes[me].blockchain == behind + [Last(ahead)]
         else after.nodes == net.nodes
  {
    ReactToTip(w, net.nodes[me], me, ahead, peer, n);
    PacketsOfOne(peer, QueryBlockchain(me));
  }

  /** Delivered the tip of a peer's chain, a node asks for the chain if and only if that is at least two
      blocks longer than its own, whatever the work of either. Otherwise it adds the tip if that is the next
      block on its own tip, and does nothing if it is not: a heavier chain is not asked for as long as it is
      not two blocks longer. */
  lemma TipAsksExactly(w: World, net: Net, me: string, peer: string, n: nat)
    requires TimeCodec(w) && JsonCodec(w) && GoodNet(w, net, n) && Running(net) && n < TWO_32
    requires me in net.nodes && peer in net.nodes
    requires |net.nodes[peer].blockchain| <= TWO_16 && TipTo(me, net.nodes[peer].blockchain, peer) in net.inFlight
    ensures var behind, ahead := net.nodes[me].blockchain, net.nodes[peer].blockchain;
            var after := Next(w, net, Deliver(TipTo(me, ahead, peer)));
      && after.inFlight == net.inFlight - multiset{TipTo(me, ahead, peer)}
                           + (if |behind| + 1 < |ahead| then multiset{Question(peer, me)} else multiset{})
      && if |ahead| == |behind| + 1 && Last(ahead).previousHash == Last(behind).hash
         then after.nodes == net.nodes[me := after.nodes[me]] && after.nodes[me].blockchain == behind + [Last(ahead)]
         else after.nodes == net.nodes
  {
    var ahead := net.nodes[peer].blockchain;
    ChainLength(w, ahead, n);
    ShortArrives(w, net, TipTo(me, ahead, peer), n);
    TipReaction(w, net, me, ahead, peer, n, Next(w, net, Deliver(TipTo(me, ahead, peer))));
  }

  // What a node that connects asks.
  function Greeting(peer: string, me: string): Packet {
    Packet(peer, QueryLatestBlock(me))
  }

  /** Asked for its latest block a node answers with the tip of its chain, and nothing else changes. */
  lemma GreetingAnswered(w: World, net: Net, me: string, peer: string, n: nat)
    requires TimeCodec(w) && JsonCodec(w) && GoodNet(w, net, n) && Running(net)
    requires peer in net.nodes && Greeting(peer, me) in net.inFlight
    ensures Next(w, net, Deliver(Greeting(peer, me)))
         == net.(inFlight := net.inFlight - multiset{Greeting(peer, me)}
                             + multiset{TipTo(me, net.nodes[peer].blockchain, peer)})
  {
    ShortArrives(w, net, Greeting(peer, me), n);
    PacketsOfOne(me, SendBlock(Last(net.nodes[peer].blockchain), peer));
    assert net.nodes[peer := net.nodes[peer]] == net.nodes;
  }

  /** Asked for its chain a node answers with all of it, and nothing else changes. */
  lemma QuestionAnswered(w: World, net: Net, me: string, peer: string, n: nat)
    requires TimeCodec(w) && JsonCodec(w) && GoodNet(w, net, n) && Running(net)
    requires peer in net.nodes && Question(peer, me) in net.inFlight
    ensures Next(w, net, Deliver(Question(peer, me)))
         == net.(inFlight := net.inFlight - multiset{Question(peer, me)}
                             + multiset{Packet(me, SendBlockchain(net.nodes[peer].blockchain, peer))})
  {
    ShortArrives(w, net, Question(peer, me), n);
    PacketsOfOne(me, SendBlockchain(net.nodes[peer].blockchain, peer));
    assert net.nodes[peer := net.nodes[peer]] == net.nodes;
  }

  // The tip, the question it leads to, and the answer to that.
  function CatchingUp(me: string, ahead: seq<Block>, peer: string): seq<Packet>
    requires ahead != []
  {
    [TipTo(me, ahead, peer), Question(peer, me), Packet(me, SendBlockchain(ahead, peer))]
  }

  lemma ExecuteThree(w: World, net: Net, p: Packet, q: Packet, r: Packet)
    requires Running(net)
    ensures Execute(w, net, Deliveries([p, q, r]))
         == Next(w, Next(w, Next(w, net, Deliver(p)), Deliver(q)), Deliver(r))
  {
    assert [p, q, r][1..] == [q, r] && [q, r][1..] == [r] && [r][1..] == [];
    ExecuteDeliveries(w, net, [p, q, r]);
    ExecuteDeliveries(w, Next(w, net, Deliver(p)), [q, r]);
    ExecuteDeliveries(w, Next(w, Next(w, net, Deliver(p)), Deliver(q)), [r]);
  }

  // The question is in flight, and no ledger has changed since the tip was seen.
  lemma Answer(w: World, net: Net, told: Net, me: string, peer: string, n: nat)
    requires TimeCodec(w) && JsonCodec(w) && GoodNet(w, told, n) && Running(told) && n < TWO_32
    requires told.nodes == net.nodes && me in net.nodes && peer in net.nodes && Question(peer, me) in told.inFlight
    requires |net.nodes[peer].blockchain| <= TWO_16
    requires Work(net.nodes[me].blockchain) < Work(net.nodes[peer].blockchain) <= INT_MAX
    ensures var ahead := net.nodes[peer];
            var after := Next(w, Next(w, told, Deliver(Question(peer, me))),
                              Deliver(Packet(me, SendBlockchain(ahead.blockchain, peer)))).nodes;
      && me in after && after == net.nodes[me := after[me]]
      && after[me].blockchain == ahead.blockchain && after[me].unspentOutputs == ahead.unspentOutputs
  {
    var answer := Packet(me, SendBlockchain(net.nodes[peer].blockchain, peer));
    QuestionAnswered(w, told, me, peer, n);
    DeliverKeepsGood(w, told, Question(peer, me), n);
    ChainArrives(w, Next(w, told, Deliver(Question(peer, me))), answer, n);
  }

  /** Catching up: once it is delivered the tip of a heavier chain at least two blocks longer, its question is
      delivered to the peer and the peer's answer to it, a node's ledger agrees with the peer's, and no other
      ledger has changed. */
  lemma TipCatchesUp(w: World, net: Net, me: string, peer: string, n: nat)
    requires TimeCodec(w) && JsonCodec(w) && GoodNet(w, net, n) && Running(net) && n < TWO_32
    requires me in net.nodes && peer in net.nodes
    requires var behind, ahead := net.nodes[me].blockchain, net.nodes[peer].blockchain;
      && TipTo(me, ahead, peer) in net.inFlight
      && |behind| + 1 < |ahead| <= TWO_16 && Work(behind) < Work(ahead) <= INT_MAX
    ensures var ahead := net.nodes[peer];
            var after := Execute(w, net, Deliveries(CatchingUp(me, ahead.blockchain, peer))).nodes;
      && me in after && after == net.nodes[me := after[me]]
      && after[me].blockchain == ahead.blockchain && after[me].unspentOutputs == ahead.unspentOutputs
  {
    var ahead := net.nodes[peer].blockchain;
    var tip, question, answer := TipTo(me, ahead, peer), Question(peer, me), Packet(me, SendBlockchain(ahead, peer));
    TipAsksExactly(w, net, me, peer, n);
    DeliverKeepsGood(w, net, tip, n);
    Answer(w, net, Next(w, net, Deliver(tip)), me, peer, n);
    ExecuteThree(w, net, tip, question, answer);
  }

  lemma ExecuteTwo(w: World, net: Net, first: Action, second: Action, rest: seq<Action>)
    requires Running(net)
    ensures Execute(w, net, [first, second] + rest) == Execute(w, Next(w, Next(w, net, first), second), rest)
  {
    assert ([first, second] + rest)[1..] == [second] + rest && ([second] + rest)[1..] == rest;
    ExecuteFirst(w, net, [first, second] + rest, 0);
    ExecuteFirst(w, Next(w, net, first), [second] + rest, 0);
  }

  // The connection, the greeting it sends, and what follows from the tip that answers it.
  function Connecting(me: string, ahead: seq<Block>, peer: string): seq<Action>
    requires ahead != []
  {
    [Connect(me, peer), Deliver(Greeting(peer, me))] + Deliveries(CatchingUp(me, ahead, peer))
  }

  /** From the moment a node connects to a peer whose chain is heavier and at least two blocks longer, four
      deliveries make its ledger agree with the peer's, and no other ledger changes. */
  lemma CatchUp(w: World, net: Net, me: string, peer: string, n: nat)
    requires TimeCodec(w) && JsonCodec(w) && GoodNet(w, net, n) && Running(net) && n < TWO_32
    requires me in net.nodes && peer in net.nodes
    requires var behind, ahead := net.nodes[me].blockchain, net.nodes[peer].blockchain;
      |behind| + 1 < |ahead| <= TWO_16 && Work(behind) < Work(ahead) <= INT_MAX
    ensures var ahead := net.nodes[peer];
            var after := Execute(w, net, Connecting(me, ahead.blockchain, peer)).nodes;
      && me in after && after == net.nodes[me := after[me]]
      && after[me].blockchain == ahead.blockchain && after[me].unspentOutputs == ahead.unspentOutputs
  {
    var ahead := net.nodes[peer].blockchain;
    var asked := Next(w, net, Connect(me, peer));
    QuietKeepsGood(w, net, Connect(me, peer), n);
    GreetingAnswered(w, asked, me, peer, n);
    DeliverKeepsGood(w, asked, Greeting(peer, me), n);
    TipCatchesUp(w, Next(w, asked, Deliver(Greeting(peer, me))), me, peer, n);
    ExecuteTwo(w, net, Connect(me, peer), Deliver(Greeting(peer, me)), Deliveries(CatchingUp(me, ahead, peer)));
  }

  // The other actions

  /** A packet that is duplicated and lost again leaves the network as it was; a loss takes one copy away and
      touches no node and no miner. */
  lemma LossAndDuplication(w: World, net: Net, packet: Packet)
    requires Running(net) && packet in net.inFlight
    ensures Next(w, net, Duplicate(packet)).inFlight[packet] == net.inFlight[packet] + 1
    ensures Next(w, Next(w, net, Duplicate(packet)), Lose(packet)) == net
    ensures Next(w, net, Lose(packet)) == net.(inFlight := net.inFlight[packet := net.inFlight[packet] - 1])
  {
    assert net.inFlight + multiset{packet} - multiset{packet} == net.inFlight;
    assert net.inFlight - multiset{packet} == net.inFlight[packet := net.inFlight[packet] - 1];
  }

  /** A posted value enters the pool of its node exactly when it reads as a transaction that is valid there. */
  lemma PostExactly(w: World, net: Net, at: string, posted: Json)
    requires Running(net) && at in net.nodes
    ensures var s, t := net.nodes[at], JsonToTransaction(posted);
      Next(w, net, Post(at, posted)) ==
        if t.Some? && IsTransactionValid(w, t.value, s.unspentOutputs)
        then net.(nodes := net.nodes[at := s.(pendingTransactions := s.pendingTransactions + [t.value])]) else net
  {
    assert net.nodes[at := net.nodes[at]] == net.nodes;
  }

  lemma {:induction false} BroadcastReaches(receivers: seq<string>, message: Message, r: string)
    ensures Packet(r, message) in Packets(Broadcast(receivers, message)) <==> r in receivers
  {
    if receivers != [] {
      assert Broadcast(receivers, message)[1..] == Broadcast(receivers[1..], message);
      BroadcastReaches(receivers[1..], message, r);
    }
  }

  lemma MinedAtExactly(w: World, net: Net, at: string, b: Block, receivers: seq<string>)
    requires Running(net) && at in net.nodes
    ensures var s, after := net.nodes[at], MinedAt(w, net, at, b, receivers);
      if Extends(Last(s.blockchain), b) && WellFormed(w, b) then
        && after.nodes == net.nodes[at := after.nodes[at]] && after.nodes[at].blockchain == s.blockchain + [b]
        && after.inFlight == net.inFlight + Packets(Broadcast(receivers, SendBlock(b, at)))
      else after.inFlight == net.inFlight && (Extends(Last(s.blockchain), b) || after.nodes == net.nodes)
  {
    AddBlockEffect(w, net.nodes[at], b);
    assert Packets(Broadcast([], SendBlock(b, at))) == multiset{};
    assert net.nodes[at := net.nodes[at]] == net.nodes;
  }

  /** A block mined for a request is added to its node's chain, with the coinbase and the pool of the request,
      and sent to every receiver, exactly when it still follows the tip and its data parses; otherwise nothing
      is sent, and a block that does not follow the tip changes no ledger. */
  lemma MineExactly(w: World, net: Net, at: string, publicKey: string, timestamp: int, difficulty: u16, nonce: u64,
                    receivers: seq<string>, n: nat)
    requires JsonCodec(w) && GoodNet(w, net, n) && Running(net) && at in net.nodes && at in net.mining
    ensures var s, request := net.nodes[at], net.mining[at];
            var b := Found(w, request, publicKey, timestamp, difficulty, nonce);
            var after := Next(w, net, Mine(at, publicKey, timestamp, difficulty, nonce, receivers));
      if b.previousHash == Last(s.blockchain).hash && b.index == Successor(Last(s.blockchain).index) && b.index < TWO_32
      then
        && after.nodes == net.nodes[at := after.nodes[at]] && after.nodes[at].blockchain == s.blockchain + [b]
        && BlockTransactions(w, b) == [CoinbaseTransaction(w, b.index, publicKey)] + request.pool
        && after.inFlight == net.inFlight + Packets(Broadcast(receivers, SendBlock(b, at)))
      else after.inFlight == net.inFlight && (Extends(Last(s.blockchain), b) || after.nodes == net.nodes)
    ensures Next(w, net, Mine(at, publicKey, timestamp, difficulty, nonce, receivers)).mining == net.mining - {at}
  {
    var b := Found(w, net.mining[at], publicKey, timestamp, difficulty, nonce);
    FoundIsGood(w, net.mining[at], publicKey, timestamp, difficulty, nonce, n);
    MinedAtExactly(w, net, at, b, receivers);
  }

  // The tip of a chain one block longer arrives at a node that holds the rest of it.
  lemma NextBlockArrives(w: World, net: Net, a: string, b: string, n: nat)
    requires TimeCodec(w) && JsonCodec(w) && GoodNet(w, net, n) && Running(net) && n < TWO_32
    requires a in net.nodes && b in net.nodes && a != b && |net.nodes[a].blockchain| <= TWO_16
    requires net.nodes[a].blockchain == net.nodes[b].blockchain + [Last(net.nodes[a].blockchain)]
    requires TipTo(b, net.nodes[a].blockchain, a) in net.inFlight
    ensures var after := Next(w, net, Deliver(TipTo(b, net.nodes[a].blockchain, a))).nodes;
      && a in after && b in after && after[a] == net.nodes[a]
      && after[b].blockchain == after[a].blockchain && after[b].unspentOutputs == after[a].unspentOutputs
  {
    var shorter, longer := net.nodes[b].blockchain, net.nodes[a].blockchain;
    assert longer[|longer| - 2] == Last(shorter);
    ValidBlocksHashed(w, longer, |longer| - 1);
    assert GoodBlock(w, Last(shorter), n);
    TipAsksExactly(w, net, b, a, n);
    DeliverKeepsGood(w, net, TipTo(b, longer, a), n);
  }

  // What a node mines on its tip with its pool.
  function Own(w: World, s: LedgerState, publicKey: string, timestamp: int, difficulty: u16, nonce: u64): Block
    requires s.blockchain != []
  {
    Found(w, Request(Last(s.blockchain), s.pendingTransactions), publicKey, timestamp, difficulty, nonce)
  }

  // A node asks its miner and gets a block.
  function OwnMined(w: World, net: Net, a: string, publicKey: string, timestamp: int, difficulty: u16, nonce: u64,
                    receivers: seq<string>): (r: Net)
    requires Running(net)
    ensures Running(r)
  {
    Next(w, Next(w, net, StartMining(a)), Mine(a, publicKey, timestamp, difficulty, nonce, receivers))
  }

  lemma OwnBlockAdded(w: World, net: Net, a: string, publicKey: string, timestamp: int, difficulty: u16, nonce: u64,
                      receivers: seq<string>, b: string, n: nat)
    requires TimeCodec(w) && JsonCodec(w) && GoodNet(w, net, n) && Running(net) && n + 1 < TWO_32
    requires a in net.nodes && b in receivers
    ensures var s := net.nodes[a];
            var block := Own(w, s, publicKey, timestamp, difficulty, nonce);
            var after := OwnMined(w, net, a, publicKey, timestamp, difficulty, nonce, receivers);
      && a in after.nodes && GoodNet(w, after, n + 1)
      && after.nodes == net.nodes[a := after.nodes[a]] && after.nodes[a].blockchain == s.blockchain + [block]
      && BlockTransactions(w, block) == [CoinbaseTransaction(w, block.index, publicKey)] + s.pendingTransactions
      && TipTo(b, after.nodes[a].blockchain, a) in after.inFlight
  {
    var asked := Next(w, net, StartMining(a));
    var mine := Mine(a, publicKey, timestamp, difficulty, nonce, receivers);
    var block := Own(w, net.nodes[a], publicKey, timestamp, difficulty, nonce);
    ChainLength(w, net.nodes[a].blockchain, n);
    QuietKeepsGood(w, net, StartMining(a), n);
    MineExactly(w, asked, a, publicKey, timestamp, difficulty, nonce, receivers, n);
    MineKeepsGood(w, asked, mine, n);
    BroadcastReaches(receivers, SendBlock(block, a), b);
  }

  /** Two nodes with one chain: when one of them mines a block and the other is delivered it, both have the
      chain with that block on top, and the block carries the coinbase and the pool of its miner. */
  lemma MinedBlockSpreads(w: World, net: Net, a: string, publicKey: string, timestamp: int, difficulty: u16, nonce: u64,
                          receivers: seq<string>, b: string, n: nat)
    requires TimeCodec(w) && JsonCodec(w) && GoodNet(w, net, n) && Running(net) && n + 1 < TWO_32
    requires a in net.nodes && b in net.nodes && a != b && b in receivers
    requires net.nodes[a].blockchain == net.nodes[b].blockchain && |net.nodes[a].blockchain| < TWO_16
    ensures var s := net.nodes[a];
            var block := Own(w, s, publicKey, timestamp, difficulty, nonce);
            var mined := [StartMining(a), Mine(a, publicKey, timestamp, difficulty, nonce, receivers)];
            var after := Execute(w, net, mined + [Deliver(Packet(b, SendBlock(block, a)))]).nodes;
      && a in after && b in after
      && after[a].blockchain == after[b].blockchain == s.blockchain + [block]
      && after[a].unspentOutputs == after[b].unspentOutputs
      && BlockTransactions(w, block) == [CoinbaseTransaction(w, block.index, publicKey)] + s.pendingTransactions
  {
    var mine := Mine(a, publicKey, timestamp, difficulty, nonce, receivers);
    var mined := OwnMined(w, net, a, publicKey, timestamp, difficulty, nonce, receivers);
    var block := Own(w, net.nodes[a], publicKey, timestamp, difficulty, nonce);
    var delivery := Deliver(Packet(b, SendBlock(block, a)));
    OwnBlockAdded(w, net, a, publicKey, timestamp, difficulty, nonce, receivers, b, n);
    NextBlockArrives(w, mined, a, b, n + 1);
    ExecuteTwo(w, net, StartMining(a), mine, [delivery]);
    ExecuteFirst(w, mined, [delivery], 0);
  }

  // Exchanging chains

  // Deliveries of chains in some order, each of a packet that is in flight by then.
  ghost predicate Deliverable(net: Net, packets: seq<Packet>) {
    multiset(packets) <= net.inFlight && forall i :: 0 <= i < |packets| ==> ChainFor(net, packets[i])
  }

  ghost function OfferedBy(packets: seq<Packet>, a: string): set<seq<Block>> {
    set p | p in packets && p.to == a && p.message.SendBlockchain? :: p.message.blockchain
  }

  // The chains a node has to choose from: its own and those that are delivered to it.
  ghost function Offered(net: Net, packets: seq<Packet>, a: string): set<seq<Block>>
    requires a in net.nodes
  {
    {net.nodes[a].blockchain} + OfferedBy(packets, a)
  }

  lemma OfferedByFirst(packets: seq<Packet>, a: string)
    requires packets != [] && packets[0].message.SendBlockchain?
    ensures OfferedBy(packets, a)
         == OfferedBy(packets[1..], a) + if packets[0].to == a then {packets[0].message.blockchain} else {}
  {
    assert forall p :: p in packets <==> p == packets[0] || p in packets[1..];
    if packets[0].to == a {
      assert packets[0].message.blockchain in OfferedBy(packets, a);
    }
  }

  // One of the chains, and none has more work.
  ghost predicate Heaviest(chains: set<seq<Block>>, chain: seq<Block>) {
    chain in chains && forall c :: c in chains ==> Work(chain) >= Work(c)
  }

  // After the first delivery the others still are.
  lemma FirstInFlight(net: Net, packets: seq<Packet>)
    requires Deliverable(net, packets) && packets != []
    ensures packets[0] in net.inFlight && ChainFor(net, packets[0])
    ensures multiset(packets[1..]) <= net.inFlight - multiset{packets[0]}
  {
    assert packets == [packets[0]] + packets[1..];
    assert packets[0] in multiset(packets);
  }

  lemma FirstDelivery(w: World, net: Net, packets: seq<Packet>, n: nat)
    requires TimeCodec(w) && JsonCodec(w) && GoodNet(w, net, n) && Running(net) && n < TWO_32
    requires Deliverable(net, packets) && packets != []
    ensures var after, p := Next(w, net, Deliver(packets[0])), packets[0];
      && GoodNet(w, after, n) && Deliverable(after, packets[1..]) && p.to in net.nodes
      && after.nodes == net.nodes[p.to := after.nodes[p.to]]
      && p.message.SendBlockchain?
      && after.nodes[p.to].blockchain == if Work(p.message.blockchain) > Work(net.nodes[p.to].blockchain)
                                         then p.message.blockchain else net.nodes[p.to].blockchain
  {
    var after, rest := Next(w, net, Deliver(packets[0])), packets[1..];
    FirstInFlight(net, packets);
    ChainArrives(w, net, packets[0], n);
    DeliverKeepsGood(w, net, packets[0], n);
    forall i | 0 <= i < |rest|
      ensures ChainFor(after, rest[i])
    {
      assert rest[i] == packets[i + 1];
    }
  }

  // What is heaviest after the first delivery was so before.
  lemma FirstOffer(net: Net, after: Net, packets: seq<Packet>, a: string, chain: seq<Block>)
    requires packets != [] && packets[0].message.SendBlockchain? && a in net.nodes && a in after.nodes
    requires var own, offered := net.nodes[a].blockchain, packets[0].message.blockchain;
      after.nodes[a].blockchain == if packets[0].to == a && Work(offered) > Work(own) then offered else own
    requires Heaviest(Offered(after, packets[1..], a), chain)
    ensures Heaviest(Offered(net, packets, a), chain)
  {
    OfferedByFirst(packets, a);
    assert after.nodes[a].blockchain in Offered(after, packets[1..], a);
  }

  /** Chains delivered in any order: each node ends with the heaviest of its own and those it was sent, and
      with the unspent outputs that chain declares. */
  lemma {:induction false} DeliveriesEndHeaviest(w: World, net: Net, packets: seq<Packet>, n: nat, a: string)
    requires TimeCodec(w) && JsonCodec(w) && GoodNet(w, net, n) && Running(net) && n < TWO_32
    requires Deliverable(net, packets) && a in net.nodes
    ensures var after := Execute(w, net, Deliveries(packets));
      && a in after.nodes && Heaviest(Offered(net, packets, a), after.nodes[a].blockchain)
      && after.nodes[a].unspentOutputs == Replay(w, after.nodes[a].blockchain)
    decreases |packets|
  {
    if packets != [] {
      var next := Next(w, net, Deliver(packets[0]));
      FirstDelivery(w, net, packets, n);
      ExecuteDeliveries(w, net, packets);
      DeliveriesEndHeaviest(w, next, packets[1..], n, a);
      FirstOffer(net, next, packets, a, Execute(w, next, Deliveries(packets[1..])).nodes[a].blockchain);
    }
  }

  // Every node's chain is delivered to every other node, and no other chains are.
  ghost predicate FullExchange(net: Net, packets: seq<Packet>) {
    && (forall p :: p in packets ==>
          p.message.SendBlockchain? && exists b :: b in net.nodes && p.message.blockchain == net.nodes[b].blockchain)
    && (forall a, b :: a in net.nodes && b in net.nodes && a != b ==>
          exists p :: p in packets && p.to == a && p.message.SendBlockchain?
            && p.message.blockchain == net.nodes[b].blockchain)
  }

  ghost function AllChains(net: Net): set<seq<Block>> {
    set a | a in net.nodes :: net.nodes[a].blockchain
  }

  lemma AllAreOffered(net: Net, packets: seq<Packet>, a: string)
    requires FullExchange(net, packets) && a in net.nodes
    ensures Offered(net, packets, a) == AllChains(net)
  {
    forall chain | chain in AllChains(net)
      ensures chain in Offered(net, packets, a)
    {
      var b :| b in net.nodes && net.nodes[b].blockchain == chain;
      if b != a {
        var p :| p in packets && p.to == a && p.message.SendBlockchain? && p.message.blockchain == chain;
      }
    }
  }

  /** After quiescent nodes have had all their chains delivered to one another, in any order and any number of
      times, all hold chains of the greatest work among them; where only one chain has that work, all hold it
      and the same unspent outputs. */
  lemma ExchangeConverges(w: World, net: Net, packets: seq<Packet>, n: nat, a: string, b: string)
    requires TimeCodec(w) && JsonCodec(w) && GoodNet(w, net, n) && Running(net) && n < TWO_32
    requires Deliverable(net, packets) && FullExchange(net, packets) && a in net.nodes && b in net.nodes
    ensures var after := Execute(w, net, Deliveries(packets)).nodes;
      && a in after && b in after
      && Heaviest(AllChains(net), after[a].blockchain) && Heaviest(AllChains(net), after[b].blockchain)
      && Work(after[a].blockchain) == Work(after[b].blockchain)
      && ((forall c, d :: Heaviest(AllChains(net), c) && Heaviest(AllChains(net), d) ==> c == d)
          ==> after[a].blockchain == after[b].blockchain && after[a].unspentOutputs == after[b].unspentOutputs)
  {
    DeliveriesEndHeaviest(w, net, packets, n, a);
    DeliveriesEndHeaviest(w, net, packets, n, b);
    AllAreOffered(net, packets, a);
    AllAreOffered(net, packets, b);
  }

  function Max(a: nat, b: nat): nat {
    if a >= b then a else b
  }

  /** Two quiescent nodes whose chains are delivered to each other both end with the greater work, and with
      one chain and one list of unspent outputs unless their work was equal. */
  lemma TwoNodesConverge(w: World, net: Net, n: nat, a: string, b: string)
    requires TimeCodec(w) && JsonCodec(w) && GoodNet(w, net, n) && Running(net) && n < TWO_32
    requires a in net.nodes && b in net.nodes && a != b
    requires var x, y := net.nodes[a].blockchain, net.nodes[b].blockchain;
      && Packet(a, SendBlockchain(y, b)) in net.inFlight && Packet(b, SendBlockchain(x, a)) in net.inFlight
      && |x| <= TWO_16 && |y| <= TWO_16 && Work(x) <= INT_MAX && Work(y) <= INT_MAX
    ensures var x, y := net.nodes[a].blockchain, net.nodes[b].blockchain;
            var first := Next(w, net, Deliver(Packet(a, SendBlockchain(y, b))));
      && Running(first) &&
      var after := Next(w, first, Deliver(Packet(b, SendBlockchain(x, a))));
      && a in after.nodes && b in after.nodes
      && Work(after.nodes[a].blockchain) == Work(after.nodes[b].blockchain) == Max(Work(x), Work(y))
      && (Work(x) != Work(y) ==> after.nodes[a].blockchain == after.nodes[b].blockchain
                                 && after.nodes[a].unspentOutputs == after.nodes[b].unspentOutputs)
  {
    var x, y := net.nodes[a].blockchain, net.nodes[b].blockchain;
    var toA, toB := Packet(a, SendBlockchain(y, b)), Packet(b, SendBlockchain(x, a));
    ChainArrives(w, net, toA, n);
    DeliverKeepsGood(w, net, toA, n);
    ChainArrives(w, Next(w, net, Deliver(toA)), toB, n);
  }
}
