# A verified model of naivecoin

naivecoin is a small proof-of-work cryptocurrency: nodes keep a chain of blocks, maintain a list of unspent
outputs incrementally as blocks come and go, gossip blocks and whole chains to one another, and mine; a client
selects coins, builds and signs a transaction and submits it to a node. This project models those four parts in
Dafny and proves properties of them. `dafny verify dfyconfig.toml` checks everything.

| file | what it models |
|---|---|
| `Basics.dfy`, `Json.dfy`, `World.dfy` | machine integers, wrapped 32-bit accumulators, decimal printing; JSON values and accessors; the libraries, as uninterpreted functions |
| `Transactions.dfy` | transaction ids, validity, creation and signing, the unspent-output update |
| `Blocks.dfy` | blocks, chain validity, cumulative difficulty, the leading-zero-bit test |
| `Encodings.dfy` | unique decodability of the two hash preimages; tamper evidence |
| `Wire.dfy` | blocks, chains, transactions and messages to and from JSON, and their dispatch |
| `Ledger.dfy` | the unspent outputs as a reading of the chain; balances and histories |
| `Value.dfy` | conservation of value by blocks and chains |
| `Client.dfy`, `Transfers.dfy` | coin selection, the client's transaction, and a transfer from query to balances |
| `Node.dfy` | the node as an object: ledger operations and message handlers |
| `Interleavings.dfy` | all schedules of a node's threads, cut where the blockchain lock is released |
| `Runs.dfy` | runs with atomic handlers: fork choice by work, the pool of pending transactions |
| `Network.dfy` | many nodes, packets lost, duplicated and reordered |
| `Miner.dfy` | the miner's window, nonce search and difficulty adjustment |
| `Pool.dfy`, `PoolCases.dfy` | when a block mined from the pool conserves value, and three ledgers where it does not |

Code that naivecoin writes as loops over mutable state is written here as methods and classes, each proved
against a function of its inputs or of the old state; the theorems are lemmas about those functions.

## What is assumed

The hash, signing, verifying, the text form of JSON and of timestamps, and the value C++ leaves undefined when
an accumulated double does not fit an `int`, are fields of a `World` that every definition takes as a parameter.
Nothing is assumed of them except where a lemma asks for it by name: `HexDigests` (digests are 40 characters
without a comma), `TimeCodec` (timestamps have no comma and parse back), `JsonCodec` (JsonCpp reads back the
values this program writes, `[]` is the empty array, and block data is read as JSON), `SignsFor` and `KeyPair`
(what `verify` says of what `sign` produced). In particular the hash is never assumed injective: where two
preimages would have to agree, the statement says that they do or that a collision is at hand. How the ledger
reads the data of a block is itself a parameter, `readTransactions`, that `JsonCodec` ties to the JSON reader.

## What the code does that its callers may not expect

These are properties that one might expect and that do not hold; the model keeps the code's behaviour, shows a
case, and proves exactly when the property does hold.

- The two totals of `is_transaction_valid` are accumulated in 32 bits, so the check is congruence modulo 2^32:
  `ValidMeansBalancedModulo32`, `WrappedTotalsCompareEqual`.
- A payment and its change carry the same key, and inputs are checked against the first entry with their id. The
  change of a payment to somebody else therefore counts in a balance but can never be spent:
  `TransferAcceptedExactly`, `OnlyFirstPayeeSpends`, `ChangeIsNeverSpent`, `NextTransferAcceptedExactly`, with the case
  `ChangeBehindPaymentIsRefused`.
- A block is pushed before its data is parsed. The unspent outputs still agree with the chain when parsing
  throws, but a replacement then stops at that block and may lower the work: `ReplaceChainEffect`,
  `ChangeRaisesWorkExactly`, `MalformedDataDecidesWork`, with the case `MalformedDataLowersWork`.
- Work is compared and the chain replaced under separate acquisitions of the lock, so of two better chains the
  lighter can win: `StaleComparisonLowersWork`, `ResumedLowersWorkExactly`, with the case `StaleComparisonHappens`.
  Validity of the chain and agreement of the unspent outputs survive every schedule: `EveryInterleavingIsSafe`.
- A block mined from the pool can add more than 50, because a submission is checked against the unspent outputs
  alone and not against the pool, because it is checked by the id of its inputs and not by their index, and because
  what is in the pool is not checked again when blocks arrive. It adds at most 50 exactly when the pool pays no more
  than the listed entries it names: `PoolBlockConservesExactly`, `ValidPoolConservesExactly`, with the cases
  `TwiceHappens`, `WrongIndexHappens` and `StaleHappens`.
- A heavier chain is asked for only when its tip is at least two blocks ahead: `TipAsksExactly`.
- Difficulty can leave the 0 to 80 bits the search can test, down from 0 to 65535 and up from 80 to 81:
  `RangeLeftExactly`, `RunTestableExactly`.
- Block indices are cut to 16 bits where they are read, so a chain of more than 2^16 blocks no longer travels:
  `BlockRoundTrip`, `LargeIndexRefused`, `ValidOnlyUncut`, `LongChainIsIgnored`.

## Model

| member | source | states |
|---|---|---|
| Basics.Accumulate32Compares | source/transaction/src/transaction.cpp:207-240 | two 32-bit accumulations agree if and only if the true sums agree modulo 2^32 |
| Transactions.JoinInputs | source/transaction/src/utils.cpp:9-20 | the loop prints the inputs one after the other |
| Transactions.JoinOutputs | source/transaction/src/utils.cpp:22-33 | the loop prints the outputs one after the other |
| Transactions.ComputeTransactionId | source/transaction/src/transaction.cpp:17-28 | the id is the hash of the printed inputs and outputs |
| Transactions.IdPreimageText | source/transaction/src/utils.cpp:9-33 | the text that is hashed for an input and an output |
| Transactions.FindUnspentOutput | source/transaction/src/transaction.cpp:30-44 | finds the first entry with the key, throws if there is none |
| Transactions.FirstWithKeyIsFirst | source/transaction/src/transaction.cpp:30-44 | what follows the first entry with the key does not matter |
| Transactions.ValidMeansBalancedModulo32 | source/transaction/src/transaction.cpp:187-243 | a transaction is valid if and only if its id is right, its inputs verify against the first entries with their ids, and its totals agree modulo 2^32 |
| Transactions.WrappedTotalsCompareEqual | source/transaction/src/transaction.cpp:207-240 | totals of 0 and 2^32 pass the comparison |
| Transactions.CreateTransaction | source/transaction/src/transaction.cpp:265-292 | the signing loop produces the specified transaction, or throws when an input names no entry |
| Transactions.CreatedTransactionKeepsId | source/transaction/src/transaction.cpp:245-292 | creation throws if and only if there are keys and some input names no listed entry; signing leaves references and outputs alone, and the id computed before it is still the right one |
| Transactions.CreatedTransactionIsValid | source/transaction/src/transaction.cpp:245-292 | with each input signed by the key of its own owner, a created transaction is valid if and only if it pays what its inputs bring modulo 2^32 |
| Transactions.CoinbaseValidExactlyForItsIndex | source/transaction/src/transaction.cpp:160-185 | a coinbase made for one index is valid for that index and no other |
| Transactions.UpdateUnspentOutputs | source/transaction/src/transaction.cpp:304-343 | the three loops compute the survivors followed by the created entries, in order |
| Blocks.MakeBlock | source/core/src/block.cpp:40-59 | every made block carries its own hash |
| Blocks.PreimageTexts | source/core/src/block.cpp:62-118 | the text that is hashed for genesis, and for a block with a value of its own in every place |
| Blocks.IsBlockchainValid | source/core/src/block.cpp:153-172 | the loop accepts exactly the non-empty chains whose every next block is valid after the one before |
| Blocks.ValidBlocksHashed | source/core/src/block.cpp:120-151 | every block of a valid chain after the first carries its own hash and names that of the block before |
| Blocks.ComputeCumulativeDifficulty | source/core/src/block.cpp:186-206 | the fill and fold compute the specified accumulation |
| Blocks.CumulativeDifficultyExact | source/core/src/block.cpp:186-206 | as long as it fits an int, cumulative difficulty is the exact sum of 2^difficulty |
| Blocks.BeyondIntIsUndefined | source/core/src/block.cpp:186-206 | the block with which the sum leaves the range of an int makes of it whatever the conversion leaves |
| Blocks.HexToBinary | source/core/src/utils.cpp:5-24 | element i is bit i of the digits, most significant first |
| Blocks.HashMatchesDifficulty | source/core/src/block.cpp:174-184 | the loop decides whether the first bits are all zero |
| Blocks.HashMatchesIsThreshold | source/core/src/block.cpp:174-184 | the test accepts exactly the hashes whose first 20 digits are a number below 2^(80 - d) |
| Blocks.HexRoundTrip | source/core/src/utils.cpp:11-13 | the digits read give back the number that was printed in hexadecimal |
| Blocks.UpperCaseReadsAlike | source/core/src/utils.cpp:11-13 | upper-case digits read like lower-case ones |
| Blocks.PrintedDigestMatches | source/core/src/block.cpp:174-184 | a digest that prints a number, in either case, meets a difficulty exactly when the number is below 2^(80 - d) |
| Blocks.LeadingZeroDigits | source/core/src/block.cpp:174-184 | at difficulty 4k the test accepts exactly the texts whose first k characters are zeros or no digits |
| Blocks.EasierStillMatches | source/core/src/block.cpp:174-184 | a hash good for a difficulty is good for every lower one |
| Encodings.PreimageDeterminesBlock | source/core/src/block.cpp:96-118 | equal block preimages with comma-free previous hashes mean equal index, previous hash, timestamp, data, difficulty and nonce, commas in data notwithstanding |
| Encodings.IdPreimageDeterminesTransaction | source/transaction/src/utils.cpp:9-33 | equal id preimages with comma-free ids and addresses mean the same references and the same outputs |
| Encodings.EqualIdsEqualTransactions | source/transaction/src/transaction.cpp:17-28 | equal transaction ids mean the same references and outputs, or a collision |
| Encodings.CoinbaseIdFixesPayee | source/transaction/src/transaction.cpp:160-185 | the id of a valid coinbase fixes its block index and payee, or there is a collision |
| Encodings.TamperedBlockIsRefused | source/core/src/block.cpp:120-172 | a valid chain with one block exchanged for another that claims the same hash is not valid, or the two collide |
| Encodings.TamperEvidence | source/core/src/block.cpp:120-172 | two accepted chains with the same tip hash agree on the whole length of the shorter, or hold a collision at equal distance from their tips |
| Encodings.TipNamesChain | source/core/src/block.cpp:62-81 | from genesis, the tip hash determines the whole chain, or there is a collision |
| Wire.PrintEach | source/serialization/src/common.cpp:65-75 | the appending loop gives the array of the printed elements (the loops of transaction.cpp and unspent_output.cpp are the same) |
| Wire.ParseEach | source/serialization/src/common.cpp:77-83 | the filling loop gives the converted elements in order, or throws at the first that does not convert |
| Wire.TransactionRoundTrip | source/serialization/src/transaction.cpp:15-113 | a transaction survives the wire exactly when its input indices fit 32 bits, otherwise reading throws |
| Wire.IndexReadsExactly | source/serialization/src/transaction.cpp:86-94 | an input index reads if and only if it is not negative and fits 32 bits |
| Wire.TransactionsRoundTrip | source/serialization/src/transaction.cpp:59-122 | the same for lists of transactions, in order |
| Wire.ReadIndicesSmall | source/serialization/src/transaction.cpp:73-113 | any transaction that reads at all has input indices of 32 bits |
| Wire.UnspentOutputsRoundTrip | source/serialization/src/unspent_output.cpp:12-49 | unspent outputs survive the wire in order |
| Wire.JsonToBlock | source/serialization/src/common.cpp:43-63 | any block read is self-consistent and has an index below 2^16 |
| Wire.BlockRoundTrip | source/serialization/src/common.cpp:28-63 | a block reads back with its index cut to 16 bits exactly when its hash is that of the cut block; with an index below 2^16, when its hash is its own |
| Wire.LargeIndexRefused | source/serialization/src/common.cpp:47-60 | a block with a larger index is refused, or exhibits a collision |
| Wire.ChainOverWire | source/serialization/src/common.cpp:65-83 | any chain reads back in order with its indices cut, or is refused as soon as one hash does not fit |
| Wire.ChainRoundTrip | source/serialization/src/common.cpp:65-83 | a chain of self-consistent blocks with indices below 2^16 survives, in order |
| Wire.ValidOnlyUncut | source/serialization/src/common.cpp:47-60 | what is read of a valid chain from index 0 is that chain, or, beyond 2^16 blocks, never a valid one |
| Wire.MessageOverWire | source/serialization/src/message.cpp:32-99 | every message a node creates ends in the matching handler with its sender and its blocks cut, or is refused, and exactly when |
| Wire.MessageRoundTrip | source/serialization/src/message.cpp:32-99 | with self-consistent blocks and indices below 2^16 the payload is unchanged |
| Wire.OtherTexts | source/serialization/src/message.cpp:68-98 | text that is no JSON object is refused, and a message of any other name reaches the handler of unknown ones |
| Wire.LenientReading | source/serialization/src/common.cpp:43-83 | null and absent members read as empty text and zero, numbers as text, an object as the list of its members and null as the empty chain, but none of them as a block; scalars and arrays have no members |
| Wire.HandledBlocksSelfConsistent | source/serialization/src/message.cpp:59-99 | whatever the text, blocks that reach a handler are self-consistent |
| Ledger.ReplayIsDeclared | source/transaction/src/transaction.cpp:304-343 | the incrementally maintained list equals, in order, the outputs of each block that no strictly later block names |
| Ledger.SpentStaysSpent | source/transaction/src/transaction.cpp:311-338 | a key a block takes off the list is absent from the list of every extension |
| Ledger.BalancesPartitionTotal | source/node/src/node.cpp:310-323 | the balances of all distinct addresses add up to the total |
| Ledger.BalanceBoundedByHistory | source/node/src/node.cpp:310-357 | a balance is at most what the reported history pays to the address |
| Ledger.EntriesTraceBack | source/node/src/node.cpp:325-357 | every listed entry is an output of a transaction in its address's history |
| Ledger.HistorySelects | source/node/src/node.cpp:325-357 | the history of an address is exactly the transactions of the chain that have an output to it, in chain order |
| Value.UpdateAccounting | source/transaction/src/transaction.cpp:304-343 | whatever the transactions of a block, it adds what they pay and takes away the listed entries they name |
| Value.BlockAccounting | source/transaction/src/transaction.cpp:304-343 | for valid transactions naming the checked keys, total after plus what is removed beyond the checked entries equals total before plus 50 plus what inputs count more than once |
| Value.ConservesExactly | source/transaction/src/transaction.cpp:160-243 | a block of valid transactions naming the checked keys adds at most 50 if and only if what it counts again is at most what it removes beyond the checked entries, and exactly 50 if and only if the two are equal |
| Value.ValueConservation | source/transaction/src/transaction.cpp:160-243 | if it names no id twice it adds at most 50, and exactly 50 if and only if nothing of value is removed beyond the checked entries; single entries suffice |
| Value.SupplyBound | source/transaction/include/naivecoin/transaction/transaction.h:17 | a chain of conservative blocks never holds more than 50 for each block after the first |
| Client.ChosenIsShortest | source/client/src/submit_transaction_command.cpp:60-89 | the chosen entries are the one shortest prefix of the origin's entries that reaches the amount, reached exactly when the balance suffices |
| Client.SelectCoins | source/client/src/submit_transaction_command.cpp:51-84 | the loop, whose unsigned subtractions never underflow, takes exactly the chosen entries and returns the exact change |
| Client.SubmitTransaction | source/client/src/submit_transaction_command.cpp:51-96 | selection and creation give the specified transaction, or insufficient funds |
| Client.TransferSucceedsExactly | source/client/src/submit_transaction_command.cpp:86-96 | the client succeeds exactly when the balance covers the amount, and its outputs sum to what it takes |
| Client.TransferAcceptedExactly | source/transaction/src/transaction.cpp:46-69 | the node accepts the client's transaction exactly when each chosen entry's id first occurs on an entry of the origin and the first entries bring the same total modulo 2^32 |
| Client.TransferEndToEnd | source/client/src/submit_transaction_command.cpp:51-96 | with distinct ids and indices below n the transaction is accepted, and block n moves the amount, mints 50 and leaves every other balance alone |
| Client.OnlyFirstPayeeSpends | source/transaction/src/transaction.cpp:52-66 | on the list of any chain, an input naming an id is valid only if signed for the payee of the first output of the transactions with that id |
| Client.ChangeIsNeverSpent | source/transaction/src/transaction.cpp:52-66 | whenever the client chooses the change of a payment to somebody else, its covered transfer is refused |
| Client.NextTransferAcceptedExactly | source/client/src/submit_transaction_command.cpp:60-84 | the transfer after one with change is accepted if and only if the origin's entries other than the change, at least one, cover it |
| Client.ChangeBehindPaymentIsRefused | source/client/src/submit_transaction_command.cpp:76-81 | an owner of one entry who pays part of it to somebody else can send nothing of the rest |
| Transfers.PostedIsTransfer | source/node/src/node.cpp:116-145 | from the JSON answer to its query the client builds the transaction for exactly the entries the node holds for it |
| Transfers.TransferThroughNode | source/node/src/node.cpp:116-161 | the same transfer with query answer, posted transaction and block data as JSON, through pool and ledger of a node, indices derived from the chain |
| Nodes.AddBlockEffect | source/node/src/node.cpp:232-257 | an added block enters chain, unspent outputs and pool alike; unparsable data counts as no transactions |
| Nodes.ReplaceChainEffect | source/node/src/node.cpp:259-268 | replacing installs the chain up to its first unparsable block with the replay of exactly that, all of it if and only if all blocks but the last parse |
| Nodes.ReactKeepsConsistent | source/node/src/node.cpp:359-441 | every handler keeps chain validity, hashes and unspent outputs consistent |
| Nodes.InterruptsExactly | source/node/src/node.cpp:370-377 | the miner is stopped exactly when a received block has been added, data and all |
| Nodes.UnconfirmedMembers | source/node/src/node.cpp:246-255 | exactly the pending transactions whose id no added transaction has stay |
| Nodes.Node.constructor | source/node/src/node.cpp:25-46 | a node starts with genesis and nothing else, consistently |
| Nodes.Node.AddBlockToBlockchain | source/node/src/node.cpp:232-257 | the method has the effect of AddBlock, exceptions included |
| Nodes.Node.TryAddingBlockToBlockchain | source/node/src/node.cpp:218-230 | adds exactly a block that extends the tip, keeping the ledger consistent |
| Nodes.Node.ReplaceBlockchain | source/node/src/node.cpp:259-268 | the loop has the effect of ReplaceChain and leaves a consistent ledger |
| Nodes.Node.CalculateBalance | source/node/src/node.cpp:310-323 | the loop returns the owned total modulo 2^64 |
| Nodes.Node.CalculateTransactions | source/node/src/node.cpp:325-357 | the loops return the history of the address, or throw if some data does not parse |
| Nodes.Node.ProcessSendBlockMessage | source/node/src/node.cpp:359-386 | the handler reacts as specified: ledger, messages, miner, peers |
| Nodes.Node.ProcessSendBlockchainMessage | source/node/src/node.cpp:388-420 | the same for a received chain |
| Nodes.Node.ProcessQueryLatestBlockMessage | source/node/src/node.cpp:422-431 | answers with the tip and changes nothing else but the peers |
| Nodes.Node.ProcessQueryBlockchainMessage | source/node/src/node.cpp:433-441 | answers with the whole chain and changes nothing else but the peers |
| Nodes.Node.SubmitTransaction | source/node/src/node.cpp:146-161 | a submission enters the pool exactly when it is valid |
| Nodes.Node.SendBlockToPeers | source/node/src/node.cpp:210-216 | the block goes to every peer once and to no one else |
| Nodes.Node.MiningRound | source/node/src/node.cpp:178-200 | a mined block is added if it still extends the tip and is then sent to every peer once, and nothing is sent otherwise |
| Interleavings.UninterruptedIsAtomic | source/node/src/node.cpp:359-441 | a thread that receives a message and resumes with no step in between leaves the ledger the atomic handler leaves |
| Interleavings.InTurnIsAtomic | source/node/src/node.cpp:359-441 | and so does a whole schedule without interruption |
| Interleavings.StaleTipAddsExactly | source/node/src/node.cpp:365-373 | after an interruption a block is added if and only if it follows both the tip that was read and the present one |
| Interleavings.MinedAddsExactly | source/node/src/node.cpp:178-194 | a mined block is added if and only if its index and previous hash follow the present tip |
| Interleavings.UninterruptedMiningAdds | source/node/src/node.cpp:178-194 | a block mined on the tip read when mining started is added if nothing came in between |
| Interleavings.PostAppendsExactly | source/node/src/node.cpp:146-161 | a post appends its transaction if and only if it is valid, and does nothing else |
| Interleavings.NextIsSafe | source/node/src/node.cpp:359-420 | one step of any thread, acting on whatever it read before, keeps the configuration safe |
| Interleavings.EveryInterleavingIsSafe | source/node/src/node.cpp:218-277 | in every state of every schedule the chain is valid, hashes are right and the unspent outputs are the declared ones |
| Interleavings.EveryBalanceTracesBack | source/node/src/node.cpp:310-357 | in every such state balances are bounded by histories and entries trace back to them |
| Interleavings.SameChainSameUnspentOutputs | source/node/src/node.cpp:232-268 | equal chains have equal unspent outputs whatever the histories |
| Interleavings.StaleComparisonLowersWork | source/node/src/node.cpp:396-409 | two better chains compared with one old chain: the lighter ends up installed |
| Interleavings.StaleComparisonHappens | source/node/src/node.cpp:396-409 | two chains of two blocks with which it does |
| Interleavings.ResumedLowersWorkExactly | source/node/src/node.cpp:400-409 | a second acquisition by any thread lowers the work exactly when it installs a chain that beats the work read and of which a part lighter than the present chain is kept |
| Runs.PoolIsWhatStillWaits | source/node/src/node.cpp:146-161 | the pool is, in order, the accepted submissions whose id occurs in no block added or added again since |
| Runs.ApplyChain | source/node/src/node.cpp:218-268 | the blocks an event adds go on top of the chain, or in place of all of it when a received chain wins |
| Runs.ChangeRaisesWork | source/node/src/node.cpp:388-420 | with atomic handlers, sums that fit an int and readable data, every change of the chain strictly raises its work |
| Runs.ChangeRaisesWorkExactly | source/node/src/node.cpp:388-420 | for every event and ledger: it does so unless a chain wins the comparison and a different, not heavier part of it is kept, and work falls exactly when that part is lighter |
| Runs.ChangesBoundedByWork | source/node/src/node.cpp:218-268 | from genesis there are at most final work minus one changes |
| Runs.NoChainReturns | source/node/src/node.cpp:259-268 | a run that ends on the chain it began with never changed it |
| Runs.MalformedDataDecidesWork | source/node/src/node.cpp:234-236 | a winning chain leaves its blocks up to the first unparsable one, with the unspent outputs those declare |
| Runs.MalformedDataLowersWork | source/node/src/node.cpp:234-236 | a chain that wins and leaves a single block of work 1 in place of a heavier ledger |
| Runs.UnreadableData | source/serialization/src/transaction.cpp:31-113 | data with an input index of more than 32 bits, as it is written, does not parse |
| Network.EveryRunIsGood | source/node/src/node.cpp:359-441 | in every run every node's chain and every chain in flight is valid and starts with genesis |
| Network.EveryRunIsReadable | source/node/src/node.cpp:234-236 | in every run that mines fewer than 2^32 blocks, the data of every block at a node or in flight parses |
| Network.EveryPacketCrosses | source/serialization/src/message.cpp:59-99 | in every run every packet in flight with indices below 2^16 reaches, as text, its handler unchanged; a longer chain arrives as no valid chain, a larger block not at all or as a collision |
| Network.HeavierChainIsInstalled | source/node/src/node.cpp:396-409 | a delivered chain of strictly greater work becomes the receiver's chain, with its unspent outputs |
| Network.LongChainIsIgnored | source/serialization/src/common.cpp:47-60 | a delivered chain of more than 2^16 blocks is dropped and changes nothing else |
| Network.TipAsksExactly | source/node/src/node.cpp:359-386 | a delivered tip leads to a question if and only if its chain is at least two blocks longer, whatever the work; else it is added or changes nothing |
| Network.GreetingAnswered | source/node/src/node.cpp:422-431 | asked for its latest block a node answers with the tip of its chain, and nothing else changes |
| Network.QuestionAnswered | source/node/src/node.cpp:433-441 | asked for its chain it answers with all of it, and nothing else changes |
| Network.CatchUp | source/node/src/node.cpp:202-208 | from the moment a node connects to a peer with a heavier chain at least two blocks longer, four deliveries give it that chain and its unspent outputs |
| Network.LossAndDuplication | source/node/src/sender.cpp:43-59 | a message that fails to arrive is one copy less in flight, and a loss undoes a duplication |
| Network.PostExactly | source/node/src/node.cpp:146-161 | a posted value enters the pool of its node if and only if it reads as a transaction that is valid there |
| Network.MineExactly | source/node/src/node.cpp:178-200 | a mined block is added with the coinbase and the pool of its request and sent to the receivers if and only if it still follows the tip and its data parses |
| Network.MinedBlockSpreads | source/node/src/node.cpp:178-216 | two nodes with one chain have one chain again, longer by the mined block, once it is delivered |
| Network.DeliveriesEndHeaviest | source/node/src/node.cpp:388-420 | after chains are delivered in any order every node holds the heaviest of its own and those it was sent |
| Network.ExchangeConverges | source/node/src/node.cpp:388-420 | after a full exchange, in any order and with repetitions, all nodes hold a chain of the greatest work, the same one if only one has it |
| Network.TwoNodesConverge | source/node/src/node.cpp:388-420 | after the chains of two nodes are delivered to each other both hold the greater work |
| Mining.FindNextBlock | source/node/src/miner.cpp:126-162 | returns the block of the first drawn nonce that meets the difficulty, nothing exactly when none does |
| Mining.Miner.constructor | source/node/src/miner.cpp:17-33 | a miner starts with no request and no block |
| Mining.Miner.RequestMineNextBlock | source/node/src/miner.cpp:64-81 | the window is the last ten requests, or all if fewer, in order |
| Mining.Miner.MineNextBlock | source/node/src/miner.cpp:99-124 | returns the block of the first drawn nonce that meets the difficulty, nothing if and only if none does; a returned block is a valid successor and carries its coinbase and the pool |
| Mining.FirstSolutionUnique | source/node/src/miner.cpp:126-162 | the drawn nonces leave no choice of the result |
| Mining.NoDifficultyMinesAtOnce | source/node/src/miner.cpp:126-162 | at difficulty 0 the first nonce drawn gives a block |
| Mining.Miner.MineRequested | source/node/src/miner.cpp:35-57 | a round leaves that block for collection if some drawn nonce meets the difficulty, and leaves the slot as it was otherwise |
| Mining.Miner.GetNextBlock | source/node/src/miner.cpp:83-97 | hands out the mined block once |
| Mining.MinedBlockIsAdded | source/node/src/node.cpp:178-194 | a mined block is added while its tip is the tip, refused once the length has changed, and its data reads back with a valid coinbase |
| Mining.StaleMinedBlockIsRefused | source/node/src/node.cpp:218-230 | a mined block whose tip is not the tip any more, for one of equal index too, is refused, or the two tips collide |
| Mining.RangeLeftExactly | source/node/src/miner.cpp:164-210 | from a testable difficulty the next one is untestable exactly when an adjusted window lowers 0 or raises 80, and then it is 65535 or 81 |
| Mining.RunTestableExactly | source/node/src/miner.cpp:164-210 | a run of mined blocks keeps to testable difficulties if and only if it starts with one and no window does so |
| Mining.DirectionExactly | source/node/src/miner.cpp:183-203 | inside the range difficulty rises by one exactly after an adjusted window below 50 seconds, falls by one exactly after one above 200, and stays otherwise |
| Mining.DifficultyCountsWindows | source/node/src/miner.cpp:164-210 | over a run the difference of difficulties is the number of fast windows less the number of slow ones |
| Mining.DifficultyDrift | source/node/src/miner.cpp:164-210 | in such a run difficulty moves by at most one for every ten blocks begun |
| Pool.SubmissionsKeepPoolValid | source/node/src/node.cpp:146-161 | submissions keep every transaction of the pool valid on the list, one by one |
| Pool.PoolBlockConservesExactly | source/node/src/miner.cpp:99-124 | the block mined from any pool adds at most 50 if and only if the pool pays no more than the listed entries it names |
| Pool.ValidPoolConservesExactly | source/node/src/miner.cpp:99-124 | of a pool whose transactions are valid one by one: when the block mined from it is checked and conservative, and when a checked one adds at most 50 |
| Pool.UnlistedPoolPaysInFull | source/transaction/src/transaction.cpp:323-343 | a pool that names no listed entry removes nothing and adds all it pays |
| Pool.StalePoolPaysInFull | source/node/src/node.cpp:246-255 | a pool whose inputs a received block spends under other ids stays, and the next block pays all of it from nothing |
| Pool.SubmittedTwicePaysTwice | source/node/src/node.cpp:146-161 | a transaction submitted twice is mined twice and adds all its outputs to the total |
| PoolCases.TwiceHappens | source/node/src/node.cpp:146-161 | a ledger of 50 on which that makes the total 150 |
| PoolCases.WrongIndexHappens | source/transaction/src/transaction.cpp:52-66 | a payment with the right id and any wrong index is accepted, takes nothing, and makes the total 150 |
| PoolCases.StaleHappens | source/node/src/node.cpp:246-255 | a payment made stale by a rival in a received block stays in the pool and takes the total from 100 to 200 |

## Left out

- HTTP, sockets, logging, program options, reading key files: input and output; of an exchange between client and node only the JSON values are modelled.
- Hashing, key generation, signing and verifying: uninterpreted, see above.
- JSON text: only values are modelled, without booleans and reals, whose conversions the program does not need; objects list their members in key order.
- The text of errors: a message that cannot be handled is `Invalid`, without the reason.
- Timestamps are integers with a text; the truncation of a difference of timestamps to 32 bits is not modelled.
- The sum of an accumulated double that does not fit an `int` is an arbitrary value, so statements about it hold whatever it is.
- Races on data read without the lock (`unspent_outputs` and `pending_transactions` in the submit and mining paths): submissions and requests are modelled as atomic.
- The condition variables between node and miner: one outstanding request at a time; whether a wait ever ends is not modelled, and the moment of an interrupt is the length of the list of nonces drawn.
- The Node object receives what its miner returns as a parameter of MiningRound instead of holding a Miner object.
- An exception in the mining loop ends naivecoin's process; here the node goes on with the block it had pushed.
- Peers are a set of names; failure counts, forgetting peers and the order of sending are not modelled, and a broadcast in the network goes to arbitrary receivers.
- `is_transaction_list_valid`, `Miner::is_timestamp_valid`, text replacement and the client's query commands: unused by the parts above, or small isolated facts.
