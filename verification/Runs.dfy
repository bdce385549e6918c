/** Runs of one node whose handlers are atomic: fork choice by work, and the pool of pending transactions. */
module Runs {
  import opened Basics
  import opened Environment
  import opened Entities
  import opened Transactions
  import opened Blocks
  import opened Encodings
  import opened Wire
  import opened Ledger
  import opened Nodes

  datatype Event =
    | BlockReceived(block: Block)
    | ChainReceived(other: seq<Block>)
    | BlockMined(mined: Block)
    | Submitted(transaction: Transaction)

  function Apply(w: World, s: LedgerState, e: Event): (r: LedgerState)
    requires s.blockchain != []
    ensures r.blockchain != []
  {
    match e
    case BlockReceived(b) => OnSendBlock(w, s, "", b, "").outcome.state
    case ChainReceived(other) => OnSendBlockchain(w, s, other).outcome.state
    case BlockMined(b) => TryAdding(w, s, b).state
    case Submitted(t) => Submit(w, s, t)
  }

  function Run(w: World, s: LedgerState, events: seq<Event>): (r: LedgerState)
    requires s.blockchain != []
    ensures r.blockchain != []
    decreases |events|
  {
    if events == [] then s
    else Apply(w, Run(w, s, events[..|events| - 1]), events[|events| - 1])
  }

  lemma RunSnoc(w: World, s: LedgerState, events: seq<Event>, e: Event)
    requires s.blockchain != []
    ensures Run(w, s, events + [e]) == Apply(w, Run(w, s, events), e)
  {
    assert (events + [e])[..|events|] == events;
  }

  // A received chain that is accepted: valid, and ahead in the comparison.
  predicate Wins(w: World, s: LedgerState, other: seq<Block>) {
    IsValidChain(w, other) && CumulativeDifficulty(w, other) > CumulativeDifficulty(w, s.blockchain)
  }

  // The blocks an event adds to the chain, in order; none when it leaves the chain alone.
  function Added(w: World, s: LedgerState, e: Event): seq<Block>
    requires s.blockchain != []
  {
    match e
    case BlockReceived(b) => if b.index > Last(s.blockchain).index && Extends(Last(s.blockchain), b) then [b] else []
    case ChainReceived(other) =>
      if Wins(w, s, other) then Kept(w, other) else []
    case BlockMined(b) => if Extends(Last(s.blockchain), b) then [b] else []
    case Submitted(_) => []
  }

  predicate Accepted(w: World, s: LedgerState, e: Event) {
    e.Submitted? && IsTransactionValid(w, e.transaction, s.unspentOutputs)
  }

  /** What an event does to the chain: the blocks it adds go on top, or in place of all when a received chain
      wins. */
  lemma ApplyChain(w: World, s: LedgerState, e: Event)
    requires s.blockchain != []
    ensures Apply(w, s, e).blockchain
         == if e.ChainReceived? && Wins(w, s, e.other) then Added(w, s, e) else s.blockchain + Added(w, s, e)
  {
    match e
    case BlockReceived(b) => AddBlockEffect(w, s, b);
    case ChainReceived(other) => ReplaceChainEffect(w, s, other);
    case BlockMined(b) => AddBlockEffect(w, s, b);
    case Submitted(t) =>
  }

  // Pending transactions

  lemma {:induction false} UnconfirmedAppend(p: seq<Transaction>, q: seq<Transaction>, transactions: seq<Transaction>)
    ensures Unconfirmed(p + q, transactions) == Unconfirmed(p, transactions) + Unconfirmed(q, transactions)
  {
    if p == [] {
      assert p + q == q;
    } else {
      assert (p + q)[1..] == p[1..] + q;
      UnconfirmedAppend(p[1..], q, transactions);
    }
  }

  lemma ConfirmsEither(a: seq<Transaction>, b: seq<Transaction>, id: string)
    ensures Confirms(a + b, id) <==> Confirms(a, id) || Confirms(b, id)
  {
    if t :| t in a && t.id == id {
      assert t in a + b;
    } else if t :| t in b && t.id == id {
      assert t in a + b;
    }
  }

  lemma {:induction false} UnconfirmedTwice(pending: seq<Transaction>, a: seq<Transaction>, b: seq<Transaction>)
    ensures Unconfirmed(Unconfirmed(pending, a), b) == Unconfirmed(pending, a + b)
  {
    if pending != [] {
      UnconfirmedTwice(pending[1..], a, b);
      ConfirmsEither(a, b, pending[0].id);
      var own := if Confirms(a, pending[0].id) then [] else [pending[0]];
      UnconfirmedAppend(own, Unconfirmed(pending[1..], a), b);
    }
  }

  lemma {:induction false} AddBlocksPending(w: World, s: LedgerState, blocks: seq<Block>)
    ensures AddBlocks(w, s, blocks).state.pendingTransactions
         == Unconfirmed(s.pendingTransactions, TransactionsOf(w, Kept(w, blocks)))
    decreases |blocks|
  {
    if blocks == [] {
      UnconfirmedByNone(s.pendingTransactions);
    } else {
      var b, rest := blocks[0], blocks[1..];
      var tail := rest[..Pushed(w, blocks) - 1];
      PushedCons(w, blocks);
      AddBlockEffect(w, s, b);
      assert TransactionsOf(w, [b] + tail) == BlockTransactions(w, b) + TransactionsOf(w, tail) by {
        assert ([b] + tail)[1..] == tail;
      }
      if WellFormed(w, b) {
        AddBlocksPending(w, AddBlock(w, s, b).state, rest);
        UnconfirmedTwice(s.pendingTransactions, BlockTransactions(w, b), TransactionsOf(w, tail));
      } else {
        assert tail == [] && BlockTransactions(w, b) == [];
      }
    }
  }

  lemma TransactionsOfOne(w: World, b: Block)
    ensures TransactionsOf(w, [b]) == BlockTransactions(w, b)
  {
    assert [b][1..] == [];
  }

  lemma ApplyPending(w: World, s: LedgerState, e: Event)
    requires s.blockchain != []
    ensures Apply(w, s, e).pendingTransactions
         == Unconfirmed(s.pendingTransactions, TransactionsOf(w, Added(w, s, e)))
            + if Accepted(w, s, e) then [e.transaction] else []
  {
    UnconfirmedByNone(s.pendingTransactions);
    match e
    case BlockReceived(b) =>
      AddBlockEffect(w, s, b);
      TransactionsOfOne(w, b);
    case ChainReceived(other) =>
      AddBlocksPending(w, s.(blockchain := [], unspentOutputs := []), other);
    case BlockMined(b) =>
      AddBlockEffect(w, s, b);
      TransactionsOfOne(w, b);
    case Submitted(t) =>
  }

  // What event number j of a run adds.
  function AddedAt(w: World, s: LedgerState, events: seq<Event>, j: nat): seq<Transaction>
    requires s.blockchain != [] && j < |events|
  {
    TransactionsOf(w, Added(w, Run(w, s, events[..j]), events[j]))
  }

  // No event from number i on adds a transaction with the id.
  ghost predicate NotAdded(w: World, s: LedgerState, events: seq<Event>, i: nat, id: string)
    requires s.blockchain != []
  {
    forall j :: i <= j < |events| ==> !Confirms(AddedAt(w, s, events, j), id)
  }

  // Event number i submits a transaction that is accepted then and whose id no later event adds.
  ghost predicate StillPending(w: World, s: LedgerState, events: seq<Event>, i: nat)
    requires s.blockchain != [] && i < |events|
  {
    Accepted(w, Run(w, s, events[..i]), events[i]) && NotAdded(w, s, events, i + 1, events[i].transaction.id)
  }

  // What each event contributes to the pool, one part an event.
  ghost function WaitingAt(w: World, s: LedgerState, events: seq<Event>, i: nat): seq<Transaction>
    requires s.blockchain != [] && i < |events|
  {
    if StillPending(w, s, events, i) then [events[i].transaction] else []
  }

  ghost function Parts(w: World, s: LedgerState, events: seq<Event>): (parts: seq<seq<Transaction>>)
    requires s.blockchain != []
    ensures |parts| == |events|
  {
    seq(|events|, i requires 0 <= i < |events| => WaitingAt(w, s, events, i))
  }

  function Joined(parts: seq<seq<Transaction>>): seq<Transaction> {
    if parts == [] then [] else Joined(parts[..|parts| - 1]) + parts[|parts| - 1]
  }

  // The transactions still pending after the run, in order of submission.
  ghost function Waiting(w: World, s: LedgerState, events: seq<Event>): seq<Transaction>
    requires s.blockchain != []
  {
    Joined(Parts(w, s, events))
  }

  function Filtered(parts: seq<seq<Transaction>>, added: seq<Transaction>): seq<seq<Transaction>> {
    seq(|parts|, i requires 0 <= i < |parts| => Unconfirmed(parts[i], added))
  }

  lemma {:induction false} FilterJoined(parts: seq<seq<Transaction>>, added: seq<Transaction>)
    ensures Unconfirmed(Joined(parts), added) == Joined(Filtered(parts, added))
  {
    if parts != [] {
      var n := |parts| - 1;
      FilterJoined(parts[..n], added);
      UnconfirmedAppend(Joined(parts[..n]), parts[n], added);
      assert Filtered(parts, added)[..n] == Filtered(parts[..n], added);
    }
  }

  lemma AddedAtSnoc(w: World, s: LedgerState, events: seq<Event>, e: Event, j: nat)
    requires s.blockchain != [] && j <= |events|
    ensures AddedAt(w, s, events + [e], j)
         == if j < |events| then AddedAt(w, s, events, j) else TransactionsOf(w, Added(w, Run(w, s, events), e))
  {
    assert (events + [e])[..j] == events[..j];
    assert events[..|events|] == events;
  }

  lemma NotAddedSnoc(w: World, s: LedgerState, events: seq<Event>, e: Event, i: nat, id: string)
    requires s.blockchain != [] && i <= |events|
    ensures NotAdded(w, s, events + [e], i, id) <==>
      NotAdded(w, s, events, i, id) && !Confirms(TransactionsOf(w, Added(w, Run(w, s, events), e)), id)
  {
    var longer := events + [e];
    AddedAtSnoc(w, s, events, e, |events|);
    if NotAdded(w, s, longer, i, id) {
      assert !Confirms(AddedAt(w, s, longer, |events|), id);
      forall j | i <= j < |events|
        ensures !Confirms(AddedAt(w, s, events, j), id)
      {
        AddedAtSnoc(w, s, events, e, j);
        assert !Confirms(AddedAt(w, s, longer, j), id);
      }
    }
    if NotAdded(w, s, events, i, id) && !Confirms(AddedAt(w, s, longer, |events|), id) {
      forall j | i <= j < |longer|
        ensures !Confirms(AddedAt(w, s, longer, j), id)
      {
        if j < |events| {
          AddedAtSnoc(w, s, events, e, j);
        }
      }
    }
  }

  lemma StillPendingSnoc(w: World, s: LedgerState, events: seq<Event>, e: Event, i: nat)
    requires s.blockchain != [] && i < |events|
    ensures StillPending(w, s, events + [e], i) <==>
      StillPending(w, s, events, i)
      && !Confirms(TransactionsOf(w, Added(w, Run(w, s, events), e)), events[i].transaction.id)
  {
    assert (events + [e])[..i] == events[..i];
    if events[i].Submitted? {
      NotAddedSnoc(w, s, events, e, i + 1, events[i].transaction.id);
    }
  }

  lemma WaitingAtSnoc(w: World, s: LedgerState, events: seq<Event>, e: Event, i: nat)
    requires s.blockchain != [] && i < |events|
    ensures WaitingAt(w, s, events + [e], i)
         == Unconfirmed(WaitingAt(w, s, events, i), TransactionsOf(w, Added(w, Run(w, s, events), e)))
  {
    StillPendingSnoc(w, s, events, e, i);
  }

  // The last event contributes its transaction if it submits one that is accepted.
  lemma LastWaits(w: World, s: LedgerState, events: seq<Event>, e: Event)
    requires s.blockchain != []
    ensures WaitingAt(w, s, events + [e], |events|) == if Accepted(w, Run(w, s, events), e) then [e.transaction] else []
  {
    assert (events + [e])[..|events|] == events;
  }

  lemma PartsSnoc(w: World, s: LedgerState, events: seq<Event>, e: Event)
    requires s.blockchain != []
    ensures var parts := Parts(w, s, events + [e]);
      && parts[..|events|] == Filtered(Parts(w, s, events), TransactionsOf(w, Added(w, Run(w, s, events), e)))
      && parts[|events|] == if Accepted(w, Run(w, s, events), e) then [e.transaction] else []
  {
    var added := TransactionsOf(w, Added(w, Run(w, s, events), e));
    forall i | 0 <= i < |events|
      ensures Parts(w, s, events + [e])[i] == Filtered(Parts(w, s, events), added)[i]
    {
      WaitingAtSnoc(w, s, events, e, i);
    }
    LastWaits(w, s, events, e);
  }

  /** The pool is, in order of submission, exactly the accepted submissions whose id occurs in no block
      added since, counting every block a replacement adds again. */
  lemma {:induction false} PoolIsWhatStillWaits(w: World, s: LedgerState, events: seq<Event>)
    requires s.blockchain != [] && s.pendingTransactions == []
    ensures Run(w, s, events).pendingTransactions == Waiting(w, s, events)
    decreases |events|
  {
    if events != [] {
      var n := |events| - 1;
      var before, e := events[..n], events[n];
      assert events == before + [e];
      PoolIsWhatStillWaits(w, s, before);
      PartsSnoc(w, s, before, e);
      FilterJoined(Parts(w, s, before), TransactionsOf(w, Added(w, Run(w, s, before), e)));
      RunSnoc(w, s, before, e);
      ApplyPending(w, Run(w, s, before), e);
    }
  }

  // Fork choice

  // Both totals of a comparison fit an int and the data of all blocks but the last of a received chain parses.
  ghost predicate Measured(w: World, s: LedgerState, e: Event) {
    e.ChainReceived? ==>
      && Work(s.blockchain) <= INT_MAX && Work(e.other) <= INT_MAX
      && forall i :: 0 <= i < |e.other| - 1 ==> WellFormed(w, e.other[i])
  }

  ghost predicate MeasuredRun(w: World, s: LedgerState, events: seq<Event>)
    requires s.blockchain != []
  {
    forall i :: 0 <= i < |events| ==> Measured(w, Run(w, s, events[..i]), events[i])
  }

  /** An event that changes the chain raises its work. */
  lemma ChangeRaisesWork(w: World, s: LedgerState, e: Event)
    requires s.blockchain != [] && Measured(w, s, e)
    ensures Apply(w, s, e).blockchain != s.blockchain ==> Work(Apply(w, s, e).blockchain) > Work(s.blockchain)
  {
    match e
    case BlockReceived(b) =>
      AddBlockEffect(w, s, b);
      OneMoreBlock(s.blockchain, b);
    case ChainReceived(other) =>
      CumulativeDifficultyExact(w, other);
      CumulativeDifficultyExact(w, s.blockchain);
      if IsValidChain(w, other) {
        ReplaceChainEffect(w, s, other);
      }
    case BlockMined(b) =>
      AddBlockEffect(w, s, b);
      OneMoreBlock(s.blockchain, b);
    case Submitted(t) =>
  }

  // How many events of the run change the chain.
  ghost function Changes(w: World, s: LedgerState, events: seq<Event>): nat
    requires s.blockchain != []
    decreases |events|
  {
    if events == [] then 0
    else
      var before := events[..|events| - 1];
      Changes(w, s, before) + if Run(w, s, events).blockchain != Run(w, s, before).blockchain then 1 else 0
  }

  /** The work of the chain grows by at least one with every change of the chain. */
  lemma {:induction false} WorkCountsChanges(w: World, s: LedgerState, events: seq<Event>)
    requires s.blockchain != [] && MeasuredRun(w, s, events)
    ensures Work(Run(w, s, events).blockchain) >= Work(s.blockchain) + Changes(w, s, events)
    decreases |events|
  {
    if events != [] {
      var n := |events| - 1;
      var before := events[..n];
      assert forall i :: 0 <= i < n ==> before[..i] == events[..i];
      WorkCountsChanges(w, s, before);
      ChangeRaisesWork(w, Run(w, s, before), events[n]);
    }
  }

  /** From genesis the number of changes of the chain is at most the final work minus one. */
  lemma ChangesBoundedByWork(w: World, events: seq<Event>)
    requires MeasuredRun(w, LedgerState([Genesis(w)], [], []), events)
    ensures var s := LedgerState([Genesis(w)], [], []);
      Changes(w, s, events) <= Work(Run(w, s, events).blockchain) - 1
  {
    var s := LedgerState([Genesis(w)], [], []);
    WorkCountsChanges(w, s, events);
    assert Pow2(0) == 1 && Work([Genesis(w)]) == Pow2(0) + Work([Genesis(w)][1..]);
  }

  /** No earlier chain ever returns: a run that ends with the chain it began with never changed it. */
  lemma NoChainReturns(w: World, s: LedgerState, events: seq<Event>)
    requires s.blockchain != [] && MeasuredRun(w, s, events)
    requires Run(w, s, events).blockchain == s.blockchain
    ensures Changes(w, s, events) == 0
  {
    WorkCountsChanges(w, s, events);
  }

  /** Exactly when an event, of any kind and on any ledger, leaves the chain alone or raises its work: unless
      it is a chain that wins the comparison and of which a different, not heavier part is kept; and exactly
      when it lowers the work: when that part is lighter. */
  lemma ChangeRaisesWorkExactly(w: World, s: LedgerState, e: Event)
    requires s.blockchain != []
    ensures (Apply(w, s, e).blockchain == s.blockchain || Work(Apply(w, s, e).blockchain) > Work(s.blockchain))
        <==> !(e.ChainReceived? && Wins(w, s, e.other)
               && Kept(w, e.other) != s.blockchain && Work(Kept(w, e.other)) <= Work(s.blockchain))
    ensures Work(Apply(w, s, e).blockchain) < Work(s.blockchain)
        <==> e.ChainReceived? && Wins(w, s, e.other) && Work(Kept(w, e.other)) < Work(s.blockchain)
  {
    if e.ChainReceived? {
      ReplaceChainEffect(w, s, e.other);
    } else {
      ChangeRaisesWork(w, s, e);
    }
  }

  /** What malformed data does to a replacement: of a chain that wins the comparison its blocks up to the
      first that does not parse are left, and the unspent outputs those declare. */
  lemma MalformedDataDecidesWork(w: World, s: LedgerState, other: seq<Block>)
    requires s.blockchain != [] && Wins(w, s, other)
    ensures Apply(w, s, ChainReceived(other)).blockchain == Kept(w, other)
    ensures Apply(w, s, ChainReceived(other)).unspentOutputs == Declared(w, Kept(w, other))
  {
    ReplaceChainEffect(w, s, other);
    ReplayIsDeclared(w, Kept(w, other));
  }

  // A first block whose data does not parse, of no difficulty, and a heavy block behind it.
  function HeavyTail(w: World, timestamp: int, junk: string): seq<Block> {
    var head := MakeBlock(w, 0, "", timestamp, junk, 0, 0);
    [head, MakeBlock(w, 1, head.hash, timestamp, "[]", 10, 0)]
  }

  lemma HeavyTailWork(w: World, timestamp: int, junk: string)
    ensures Work(HeavyTail(w, timestamp, junk)) == 1025 && Work(HeavyTail(w, timestamp, junk)[..1]) == 1
  {
    var other := HeavyTail(w, timestamp, junk);
    assert Pow2(0) == 1 && Pow2(5) == 32 && Pow2(10) == 1024;
    assert other == [other[0]] + [other[1]] && other[..1] == [other[0]];
    assert [other[0]][1..] == [] && [other[1]][1..] == [];
    WorkAppend([other[0]], [other[1]]);
  }

  // Such data exists: input indices are written with 64 bits and read back with 32.
  lemma UnreadableData(w: World, t: Transaction)
    requires JsonCodec(w) && !SmallIndices(t)
    ensures w.readTransactions(SerializeTransactions(w, [t])).None?
  {
    TransactionsRoundTrip([t]);
    assert t in [t];
  }

  /** A case where an atomic replacement lowers the work: a ledger of any work from 2 to 1024 receives a valid
      chain that wins the comparison with 1025 and of which a single block of work 1 is kept. */
  lemma MalformedDataLowersWork(w: World, s: LedgerState, timestamp: int, junk: string)
    requires s.blockchain != [] && 2 <= Work(s.blockchain) <= 1024 && w.readTransactions(junk).None?
    ensures var other := HeavyTail(w, timestamp, junk);
      && Wins(w, s, other) && AllSelfConsistent(w, other)
      && Work(Apply(w, s, ChainReceived(other)).blockchain) == 1 < Work(s.blockchain)
  {
    var other := HeavyTail(w, timestamp, junk);
    HeavyTailWork(w, timestamp, junk);
    CumulativeDifficultyExact(w, other);
    CumulativeDifficultyExact(w, s.blockchain);
    assert !WellFormed(w, other[0]) && Pushed(w, other) == 1;
    assert IsNewBlockValid(w, other[1], other[0]);
    MalformedDataDecidesWork(w, s, other);
    assert Kept(w, other) == other[..1];
  }
}
