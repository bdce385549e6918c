/** Every interleaving of a node's threads, cut at the points where the blockchain lock is released. */
module Interleavings {
  import opened Basics
  import opened Environment
  import opened Transactions
  import opened Entities
  import opened Blocks
  import opened Encodings
  import opened Wire
  import opened Ledger
  import opened Nodes

  // Where a thread stands between two acquisitions of the lock, and what it remembers from the first.
  datatype Thread =
    | Idle
    | TipRead(received: Block, tip: Block)
    | WorkRead(other: seq<Block>, work: u64)
    | Mining(tip: Block)

  datatype Config = Config(ledger: LedgerState, threads: seq<Thread>)

  datatype Action =
    | Receive(call: Call)
    | StartMining
    | Resume
    | Mined(index: u64, previousHash: string, timestamp: int, data: string, difficulty: u16, nonce: u64)
    | Post(transaction: Transaction)

  // A message arrives at an idle thread, which runs until it has read the ledger once. Whatever its text
  // was, a message that reaches a handler carries self-consistent blocks (HandledBlocksSelfConsistent).
  function Received(w: World, s: LedgerState, call: Call): Thread
    requires s.blockchain != []
  {
    if !CarriesSelfConsistentBlocks(w, call) then Idle
    else
      match call
      case Handle(SendBlock(b, _)) => TipRead(b, Last(s.blockchain))
      case Handle(SendBlockchain(other, _)) =>
        if IsValidChain(w, other) then WorkRead(other, CumulativeDifficulty(w, s.blockchain)) else Idle
      case _ => Idle
  }

  // A handler takes the lock for the second time and decides on what it read the first time.
  function Resumed(w: World, s: LedgerState, thread: Thread): LedgerState
    requires s.blockchain != []
  {
    match thread
    case TipRead(b, tip) =>
      if b.index > tip.index && Extends(tip, b) then TryAdding(w, s, b).state else s
    case WorkRead(other, work) =>
      if CumulativeDifficulty(w, other) > work then ReplaceChain(w, s, other).state else s
    case _ => s
  }

  // Actions that do not fit where the thread stands change nothing.
  function Next(w: World, c: Config, thread: nat, action: Action): Config
    requires c.ledger.blockchain != []
  {
    if thread >= |c.threads| then c
    else
      var at := c.threads[thread];
      match action
      case Receive(call) =>
        if at.Idle? then c.(threads := c.threads[thread := Received(w, c.ledger, call)]) else c
      case StartMining =>
        if at.Idle? then c.(threads := c.threads[thread := Mining(Last(c.ledger.blockchain))]) else c
      case Resume =>
        Config(Resumed(w, c.ledger, at), c.threads[thread := Idle])
      case Mined(index, previousHash, timestamp, data, difficulty, nonce) =>
        if at.Mining? then
          var b := MakeBlock(w, index, previousHash, timestamp, data, difficulty, nonce);
          Config(TryAdding(w, c.ledger, b).state, c.threads[thread := Idle])
        else c
      case Post(t) =>
        if at.Idle? then c.(ledger := Submit(w, c.ledger, t)) else c
  }

  // Steps of one thread

  /** A thread that is not interrupted between its two acquisitions does what the atomic handler does. */
  lemma UninterruptedIsAtomic(w: World, c: Config, thread: nat, me: string, message: Message)
    requires c.ledger.blockchain != [] && thread < |c.threads| && c.threads[thread].Idle?
    requires CarriesSelfConsistentBlocks(w, Handle(message))
    ensures var read := Next(w, c, thread, Receive(Handle(message)));
      && read.ledger == c.ledger
      && Next(w, read, thread, Resume) == c.(ledger := React(w, c.ledger, me, message).outcome.state)
  {
    var read := Next(w, c, thread, Receive(Handle(message)));
    assert read.threads[thread := Idle] == c.threads;
  }

  /** What an interrupted one does with a block: it adds the block exactly when it follows both the tip that
      was read and the tip the ledger has by now. */
  lemma StaleTipAddsExactly(w: World, s: LedgerState, b: Block, tip: Block)
    requires s.blockchain != []
    ensures var r := Resumed(w, s, TipRead(b, tip));
      if b.index > tip.index && Extends(tip, b) && Extends(Last(s.blockchain), b)
      then r.blockchain == s.blockchain + [b]
        && r.unspentOutputs == Updated(b.index, BlockTransactions(w, b), s.unspentOutputs)
      else r == s
  {
    AddBlockEffect(w, s, b);
  }

  /** A mined block is added exactly when its index and previous hash follow the present tip, whatever tip it
      was mined on. */
  lemma MinedAddsExactly(w: World, c: Config, thread: nat, index: u64, previousHash: string, timestamp: int,
                         data: string, difficulty: u16, nonce: u64)
    requires c.ledger.blockchain != [] && thread < |c.threads| && c.threads[thread].Mining?
    ensures var after := Next(w, c, thread, Mined(index, previousHash, timestamp, data, difficulty, nonce));
            var tip := Last(c.ledger.blockchain);
      && after.threads == c.threads[thread := Idle]
      && if index == Successor(tip.index) && previousHash == tip.hash
         then after.ledger.blockchain == c.ledger.blockchain
                + [MakeBlock(w, index, previousHash, timestamp, data, difficulty, nonce)]
         else after.ledger == c.ledger
  {
    AddBlockEffect(w, c.ledger, MakeBlock(w, index, previousHash, timestamp, data, difficulty, nonce));
  }

  /** A miner that is not overtaken: a block mined on the tip read when mining started is added. */
  lemma UninterruptedMiningAdds(w: World, c: Config, thread: nat, timestamp: int, data: string, difficulty: u16, nonce: u64)
    requires c.ledger.blockchain != [] && thread < |c.threads| && c.threads[thread].Idle?
    ensures var tip := Last(c.ledger.blockchain);
            var started := Next(w, c, thread, StartMining);
            var index := Successor(tip.index);
      && started.ledger == c.ledger && thread < |started.threads| && started.threads[thread] == Mining(tip)
      && Next(w, started, thread, Mined(index, tip.hash, timestamp, data, difficulty, nonce)).ledger.blockchain
         == c.ledger.blockchain + [MakeBlock(w, index, tip.hash, timestamp, data, difficulty, nonce)]
  {
    var tip := Last(c.ledger.blockchain);
    MinedAddsExactly(w, Next(w, c, thread, StartMining), thread, Successor(tip.index), tip.hash, timestamp, data,
      difficulty, nonce);
  }

  /** A post appends its transaction to the pool exactly when it is valid, and does nothing else. */
  lemma PostAppendsExactly(w: World, c: Config, thread: nat, t: Transaction)
    requires c.ledger.blockchain != [] && thread < |c.threads| && c.threads[thread].Idle?
    ensures var pool := c.ledger.pendingTransactions;
      Next(w, c, thread, Post(t)) == c.(ledger := c.ledger.(pendingTransactions :=
        if IsTransactionValid(w, t, c.ledger.unspentOutputs) then pool + [t] else pool))
  {
  }

  ghost predicate ThreadSafe(w: World, thread: Thread) {
    match thread
    case TipRead(b, _) => SelfConsistent(w, b)
    case WorkRead(other, _) => IsValidChain(w, other) && AllSelfConsistent(w, other)
    case _ => true
  }

  ghost predicate Safe(w: World, c: Config) {
    Consistent(w, c.ledger) && forall i :: 0 <= i < |c.threads| ==> ThreadSafe(w, c.threads[i])
  }

  lemma ResumedIsConsistent(w: World, s: LedgerState, thread: Thread)
    requires Consistent(w, s) && ThreadSafe(w, thread)
    ensures Consistent(w, Resumed(w, s, thread))
  {
    match thread
    case TipRead(b, tip) => TryAddingKeepsConsistent(w, s, b);
    case WorkRead(other, work) => ReplaceKeepsConsistent(w, s, other);
    case _ =>
  }

  /** One step of any thread, whatever it remembers, keeps every configuration safe. */
  lemma NextIsSafe(w: World, c: Config, thread: nat, action: Action)
    requires Safe(w, c)
    ensures Safe(w, Next(w, c, thread, action))
  {
    if thread < |c.threads| {
      match action
      case Resume => ResumedIsConsistent(w, c.ledger, c.threads[thread]);
      case Mined(index, previousHash, timestamp, data, difficulty, nonce) =>
        TryAddingKeepsConsistent(w, c.ledger, MakeBlock(w, index, previousHash, timestamp, data, difficulty, nonce));
      case _ =>
    }
  }

  function Start(w: World, threads: nat): Config {
    Config(LedgerState([Genesis(w)], [], []), seq(threads, i => Idle))
  }

  // A schedule: which thread takes which action, in order.
  type Schedule = seq<(nat, Action)>

  ghost function Execute(w: World, c: Config, schedule: Schedule): (r: Config)
    requires Safe(w, c)
    ensures Safe(w, r)
    decreases |schedule|
  {
    if schedule == [] then c
    else
      NextIsSafe(w, c, schedule[0].0, schedule[0].1);
      Execute(w, Next(w, c, schedule[0].0, schedule[0].1), schedule[1..])
  }

  /** In every state any schedule reaches, with stale tips, stale work and stale mined blocks, the chain is
      valid, every hash is its block's own, and the unspent outputs are those the chain declares. */
  lemma EveryInterleavingIsSafe(w: World, threads: nat, schedule: Schedule)
    requires JsonCodec(w)
    ensures Safe(w, Start(w, threads))
    ensures var s := Execute(w, Start(w, threads), schedule).ledger;
      && IsValidChain(w, s.blockchain) && AllSelfConsistent(w, s.blockchain)
      && s.unspentOutputs == Replay(w, s.blockchain) == Declared(w, s.blockchain)
  {
    GenesisCreatesNothing(w);
    ReplayIsDeclared(w, Execute(w, Start(w, threads), schedule).ledger.blockchain);
  }

  /** In every such state a balance is at most what the address's reported history pays it, and every
      entry counted is an output of a transaction of that history. */
  lemma EveryBalanceTracesBack(w: World, threads: nat, schedule: Schedule, address: string)
    requires JsonCodec(w) && Safe(w, Start(w, threads))
    ensures var s := Execute(w, Start(w, threads), schedule).ledger;
      && Owned(s.unspentOutputs, address) <= PaidByAll(History(w, s.blockchain, address), address)
      && forall e :: e in s.unspentOutputs && e.address == address ==>
           exists t :: t in History(w, s.blockchain, address) && IsOutputOf(t, e)
  {
    var s := Execute(w, Start(w, threads), schedule).ledger;
    BalanceBoundedByHistory(w, s.blockchain, address);
    forall e | e in s.unspentOutputs && e.address == address
      ensures exists t :: t in History(w, s.blockchain, address) && IsOutputOf(t, e)
    {
      EntriesTraceBack(w, s.blockchain, e);
    }
  }

  /** Two nodes that hold the same chain hold the same unspent outputs, whatever happened to them. */
  lemma SameChainSameUnspentOutputs(w: World, threadsA: nat, scheduleA: Schedule, threadsB: nat, scheduleB: Schedule)
    requires JsonCodec(w) && Safe(w, Start(w, threadsA)) && Safe(w, Start(w, threadsB))
    requires Execute(w, Start(w, threadsA), scheduleA).ledger.blockchain
          == Execute(w, Start(w, threadsB), scheduleB).ledger.blockchain
    ensures Execute(w, Start(w, threadsA), scheduleA).ledger.unspentOutputs
         == Execute(w, Start(w, threadsB), scheduleB).ledger.unspentOutputs
  {
  }

  lemma ExecuteStep(w: World, c: Config, thread: nat, action: Action, rest: Schedule)
    requires Safe(w, c)
    ensures Safe(w, Next(w, c, thread, action))
    ensures Execute(w, c, [(thread, action)] + rest) == Execute(w, Next(w, c, thread, action), rest)
  {
    NextIsSafe(w, c, thread, action);
    assert ([(thread, action)] + rest)[1..] == rest;
  }

  lemma ResumedInstalls(w: World, s: LedgerState, other: seq<Block>, work: u64)
    requires s.blockchain != [] && other != [] && AllWellFormed(w, other)
    requires work < Work(other) <= INT_MAX
    ensures Resumed(w, s, WorkRead(other, work)).blockchain == other
  {
    CumulativeDifficultyExact(w, other);
    ReplaceChainEffect(w, s, other);
  }

  lemma GenesisWork(w: World)
    ensures CumulativeDifficulty(w, [Genesis(w)]) == Work([Genesis(w)]) == 1
  {
    assert Pow2(0) == 1;
    assert Work([Genesis(w)][1..]) == 0;
    CumulativeDifficultyExact(w, [Genesis(w)]);
  }

  /** A second acquisition, of any thread on any ledger, lowers the work exactly when it installs a chain that
      beats the work that was read and of which a part lighter than the ledger's present chain is kept; for
      readable chains whose work fits an int, when the chain beats the work read but not the present work. */
  lemma ResumedLowersWorkExactly(w: World, s: LedgerState, thread: Thread)
    requires s.blockchain != []
    ensures Work(Resumed(w, s, thread).blockchain) < Work(s.blockchain)
        <==> thread.WorkRead? && CumulativeDifficulty(w, thread.other) > thread.work
             && Work(Kept(w, thread.other)) < Work(s.blockchain)
    ensures thread.WorkRead? && AllWellFormed(w, thread.other) && Work(thread.other) <= INT_MAX ==>
      (Work(Resumed(w, s, thread).blockchain) < Work(s.blockchain)
       <==> thread.work < Work(thread.other) < Work(s.blockchain))
  {
    match thread
    case TipRead(b, _) =>
      AddBlockEffect(w, s, b);
      OneMoreBlock(s.blockchain, b);
    case WorkRead(other, _) =>
      ReplaceChainEffect(w, s, other);
      if AllWellFormed(w, other) && Work(other) <= INT_MAX {
        CumulativeDifficultyExact(w, other);
      }
    case _ =>
  }

  // Both threads have read the work of the genesis chain.
  lemma BothCompared(w: World, better: seq<Block>, good: seq<Block>, sender: string)
    requires IsValidChain(w, better) && AllSelfConsistent(w, better) && Safe(w, Start(w, 2))
    requires IsValidChain(w, good) && AllSelfConsistent(w, good)
    ensures var first, second := Receive(Handle(SendBlockchain(better, sender))), Receive(Handle(SendBlockchain(good, sender)));
      Execute(w, Start(w, 2), [(0, first), (1, second)])
      == Config(Start(w, 2).ledger, [WorkRead(better, 1), WorkRead(good, 1)])
  {
    var first, second := Receive(Handle(SendBlockchain(better, sender))), Receive(Handle(SendBlockchain(good, sender)));
    var c0 := Start(w, 2);
    var c1 := c0.(threads := [WorkRead(better, 1), Idle]);
    GenesisWork(w);
    assert Next(w, c0, 0, first) == c1;
    ExecuteStep(w, c0, 0, first, [(1, second)]);
    assert [(0, first)] + [(1, second)] == [(0, first), (1, second)];
    ExecuteStep(w, c1, 1, second, []);
    assert [(1, second)] + [] == [(1, second)];
    assert Next(w, c1, 1, second) == Config(c0.ledger, [WorkRead(better, 1), WorkRead(good, 1)]);
  }

  lemma BothResume(w: World, s: LedgerState, better: seq<Block>, good: seq<Block>)
    requires s.blockchain != [] && better != [] && good != [] && AllWellFormed(w, better) && AllWellFormed(w, good)
    requires 1 < Work(good) <= INT_MAX && 1 < Work(better) <= INT_MAX
    ensures var c := Config(s, [WorkRead(better, 1), WorkRead(good, 1)]);
            var d := Next(w, c, 0, Resume);
      d.ledger.blockchain == better && Next(w, d, 1, Resume).ledger.blockchain == good
  {
    ResumedInstalls(w, s, better, 1);
    var d := Next(w, Config(s, [WorkRead(better, 1), WorkRead(good, 1)]), 0, Resume);
    assert d.threads == [Idle, WorkRead(good, 1)];
    ResumedInstalls(w, d.ledger, good, 1);
  }

  /** Comparing and replacing under separate acquisitions can lower the work: two better chains are
      compared with the same old chain, and the one of less work is installed last. */
  lemma StaleComparisonLowersWork(w: World, better: seq<Block>, good: seq<Block>, sender: string)
    requires JsonCodec(w)
    requires IsValidChain(w, better) && AllSelfConsistent(w, better) && AllWellFormed(w, better)
    requires IsValidChain(w, good) && AllSelfConsistent(w, good) && AllWellFormed(w, good)
    requires 1 < Work(good) < Work(better) <= INT_MAX
    ensures Safe(w, Start(w, 2))
    ensures var first, second := Receive(Handle(SendBlockchain(better, sender))), Receive(Handle(SendBlockchain(good, sender)));
            var c := Execute(w, Start(w, 2), [(0, first), (1, second)]);
            var d := Next(w, c, 0, Resume);
      d.ledger.blockchain == better && Next(w, d, 1, Resume).ledger.blockchain == good
  {
    EveryInterleavingIsSafe(w, 2, []);
    BothCompared(w, better, good, sender);
    BothResume(w, Start(w, 2).ledger, better, good);
  }

  // Genesis and one block on top of it.
  function TwoBlocks(w: World, timestamp: int, difficulty: u16): seq<Block> {
    [Genesis(w), MakeBlock(w, 1, Genesis(w).hash, timestamp, "[]", difficulty, 0)]
  }

  lemma TwoBlocksWork(w: World, timestamp: int, difficulty: u16)
    requires JsonCodec(w)
    ensures var chain := TwoBlocks(w, timestamp, difficulty);
      && IsValidChain(w, chain) && AllSelfConsistent(w, chain) && AllWellFormed(w, chain)
      && Work(chain) == 1 + Pow2(difficulty)
  {
    var chain := TwoBlocks(w, timestamp, difficulty);
    GenesisCreatesNothing(w);
    assert w.readTransactions("[]") == w.readTransactions(Genesis(w).data);
    GenesisWork(w);
    assert chain == [Genesis(w)] + [chain[1]] && [chain[1]][1..] == [];
    WorkAppend([Genesis(w)], [chain[1]]);
  }

  /** A case: a chain of work 3 is replaced by one of work 2. */
  lemma StaleComparisonHappens(w: World, timestamp: int, sender: string)
    requires JsonCodec(w)
    ensures Safe(w, Start(w, 2))
    ensures var better, good := TwoBlocks(w, timestamp, 1), TwoBlocks(w, timestamp, 0);
            var c := Execute(w, Start(w, 2), [(0, Receive(Handle(SendBlockchain(better, sender)))),
                                              (1, Receive(Handle(SendBlockchain(good, sender))))]);
            var d := Next(w, c, 0, Resume);
      && d.ledger.blockchain == better && Work(better) == 3
      && Next(w, d, 1, Resume).ledger.blockchain == good && Work(good) == 2
  {
    assert Pow2(0) == 1 && Pow2(1) == 2;
    TwoBlocksWork(w, timestamp, 0);
    TwoBlocksWork(w, timestamp, 1);
    StaleComparisonLowersWork(w, TwoBlocks(w, timestamp, 1), TwoBlocks(w, timestamp, 0), sender);
  }

  // Schedules without interruption

  // The messages handled one after the other.
  function HandledInTurn(w: World, s: LedgerState, me: string, messages: seq<Message>): LedgerState
    requires s.blockchain != []
    decreases |messages|
  {
    if messages == [] then s
    else HandledInTurn(w, React(w, s, me, messages[0]).outcome.state, me, messages[1..])
  }

  // The schedule of one thread that receives each message and resumes at once.
  function InTurn(thread: nat, messages: seq<Message>): Schedule {
    if messages == [] then []
    else [(thread, Receive(Handle(messages[0])))] + ([(thread, Resume)] + InTurn(thread, messages[1..]))
  }

  /** A schedule in which no thread is interrupted leaves the ledger the atomic handlers leave. */
  lemma {:induction false} InTurnIsAtomic(w: World, c: Config, thread: nat, me: string, messages: seq<Message>)
    requires Safe(w, c) && thread < |c.threads| && c.threads[thread].Idle?
    requires forall i :: 0 <= i < |messages| ==> CarriesSelfConsistentBlocks(w, Handle(messages[i]))
    ensures Execute(w, c, InTurn(thread, messages)) == c.(ledger := HandledInTurn(w, c.ledger, me, messages))
    decreases |messages|
  {
    if messages != [] {
      var m, rest := messages[0], messages[1..];
      var read := Next(w, c, thread, Receive(Handle(m)));
      UninterruptedIsAtomic(w, c, thread, me, m);
      ExecuteStep(w, c, thread, Receive(Handle(m)), [(thread, Resume)] + InTurn(thread, rest));
      ExecuteStep(w, read, thread, Resume, InTurn(thread, rest));
      InTurnIsAtomic(w, Next(w, read, thread, Resume), thread, me, rest);
    }
  }
}
