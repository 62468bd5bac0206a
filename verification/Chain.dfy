/**
 * The environment of every chain read: a remote node whose canonical chain may grow or be
 * reorganised between any two awaited RPC calls.
 *
 * A run lists the views that are canonical one after the other. Every theorem about a reader is
 * stated for an arbitrary run and an arbitrary schedule, that is, for all interleavings of chain
 * changes with the reads.
 */
module Chain {
  import opened Wrappers
  import opened Text

  datatype Transaction = Transaction(hash: string, status: nat)

  /** Raw values of `getBusinessDetails`; the enumerations arrive as numbers. */
  datatype RegistryDetails = RegistryDetails(
    wallet: string, kycStatus: nat, tier: nat, registeredAt: nat, lastVerified: nat)

  /**
   * What contract calls evaluated at a block return. An absent key is a call that reverts.
   * `approvals` is the ERC-1271 answer for (account, message, signature).
   */
  datatype WorldState = WorldState(
    code: map<string, string>,
    details: map<string, RegistryDetails>,
    active: map<string, bool>,
    admin: map<string, bool>,
    approvals: map<(string, string, string), string>)

  datatype Block = Block(
    number: nat, hash: string, timestamp: nat, transactions: seq<Transaction>, state: WorldState)

  datatype View = View(chainId: nat, blocks: seq<Block>)

  type Run = seq<View>

  ghost predicate Canonical(view: View, b: Block) {
    b.number < |view.blocks| && view.blocks[b.number] == b
  }

  /** ethers: head number - block number + 1. Negative or zero once the chain is shorter than the block. */
  function Confirmations(view: View, number: nat): int {
    |view.blocks| - number
  }

  predicate HashIsNormal(hash: string) {
    hash != "" && Lower(hash) == hash
  }

  /** A chain has a head, and block `n` sits at position `n`. */
  ghost predicate Numbered(view: View) {
    |view.blocks| > 0 && forall i :: 0 <= i < |view.blocks| ==> view.blocks[i].number == i
  }

  ghost predicate WellFormed(view: View) {
    && Numbered(view)
    && (forall i :: 0 <= i < |view.blocks| ==> HashIsNormal(view.blocks[i].hash))
    && MinedOnce(view)
  }

  /** A transaction occurs at most once in one chain, and its hash is stored in lower case. */
  ghost predicate MinedOnce(view: View) {
    forall i, j, t, u ::
      0 <= i < |view.blocks| && 0 <= j < |view.blocks| &&
      t in view.blocks[i].transactions && u in view.blocks[j].transactions && t.hash == u.hash ==>
        i == j && t == u
  }

  /** Environment assumption: a block hash determines the block. */
  ghost predicate HashIdentifies(run: Run) {
    forall i, j, b, c ::
      0 <= i < |run| && 0 <= j < |run| && Canonical(run[i], b) && Canonical(run[j], c) && b.hash == c.hash ==> b == c
  }

  /** Environment assumption: once orphaned, a block never becomes canonical again. */
  ghost predicate OrphansStayOrphans(run: Run) {
    forall i, j, k, b ::
      0 <= i <= j <= k < |run| && Canonical(run[i], b) && Canonical(run[k], b) ==> Canonical(run[j], b)
  }

  /** Environment assumption: no reorg drops a block that already has `depth` confirmations. */
  ghost predicate FinalAt(run: Run, depth: int) {
    forall i, j, b ::
      0 <= i <= j < |run| && Canonical(run[i], b) && Confirmations(run[i], b.number) >= depth ==> Canonical(run[j], b)
  }

  ghost predicate Lawful(run: Run) {
    && (forall i :: 0 <= i < |run| ==> WellFormed(run[i]))
    && HashIdentifies(run)
    && OrphansStayOrphans(run)
  }

  /** The same view throughout the moments `from..to`. */
  ghost predicate Quiet(run: Run, from: nat, to: nat) {
    from <= to < |run| && forall t :: from <= t <= to ==> run[t] == run[from]
  }

  /** The node answers faithfully and nothing on the chain changes between two moments. */
  ghost predicate Settled(run: Run, from: nat, to: nat, misdirects: bool) {
    !misdirects && Quiet(run, from, to) && WellFormed(run[from])
  }

  /** The node answers faithfully and this block stays canonical between two moments; the chain may grow meanwhile. */
  ghost predicate Kept(run: Run, from: nat, to: nat, misdirects: bool, b: Block) {
    !misdirects && from <= to < |run| && forall t :: from <= t <= to ==> WellFormed(run[t]) && Canonical(run[t], b)
  }

  /**
   * The step every snapshot reader rests on: a block seen canonical at one moment and named by
   * hash again at a later one was canonical throughout, so reads by number in between hit it.
   */
  lemma SameHashPinsBlock(run: Run, b: Block, first: nat, c: Block, last: nat)
    requires Lawful(run) && first <= last < |run|
    requires Canonical(run[first], b) && Canonical(run[last], c) && Lower(b.hash) == Lower(c.hash)
    ensures b == c
    ensures forall t :: first <= t <= last ==> Canonical(run[t], b)
  {
    assert HashIsNormal(b.hash) && HashIsNormal(c.hash);
  }

  // ---------------------------------------------------------------- looking transactions up

  function LocateIn(transactions: seq<Transaction>, hash: string): (found: Option<Transaction>)
    ensures found.Some? ==> found.value in transactions && found.value.hash == hash
    ensures found.None? ==> forall t :: t in transactions ==> t.hash != hash
  {
    if transactions == [] then None
    else if transactions[0].hash == hash then Some(transactions[0])
    else LocateIn(transactions[1..], hash)
  }

  function LocateFrom(view: View, start: nat, hash: string): (found: Option<(nat, Transaction)>)
    requires start <= |view.blocks|
    ensures found.Some? ==>
              start <= found.value.0 < |view.blocks| && found.value.1 in view.blocks[found.value.0].transactions &&
              found.value.1.hash == hash
    ensures found.None? ==>
              forall i, t :: start <= i < |view.blocks| && t in view.blocks[i].transactions ==> t.hash != hash
    decreases |view.blocks| - start
  {
    if start == |view.blocks| then None
    else
      match LocateIn(view.blocks[start].transactions, hash)
      case Some(t) => Some((start, t))
      case None => LocateFrom(view, start + 1, hash)
  }

  /** Block number and body of the mined transaction with this (lower-case) hash. */
  function Locate(view: View, hash: string): (found: Option<(nat, Transaction)>)
    ensures found.Some? ==>
              found.value.0 < |view.blocks| && found.value.1 in view.blocks[found.value.0].transactions &&
              found.value.1.hash == hash
    ensures found.None? ==>
              forall i, t :: 0 <= i < |view.blocks| && t in view.blocks[i].transactions ==> t.hash != hash
  {
    LocateFrom(view, 0, hash)
  }

  // ---------------------------------------------------------------- RPC answers

  datatype Rpc<+T> = Unavailable | Answered(value: T)

  datatype Header = Header(number: nat, hash: string, timestamp: nat)

  datatype Receipt = Receipt(hash: string, status: nat, blockNumber: nat, blockHash: string)

  /** `getTransaction`: a pending transaction has no block yet. */
  datatype TransactionRecord = TransactionRecord(hash: string, blockNumber: Option<nat>, blockHash: Option<string>)

  predicate HeaderOf(view: View, h: Header) {
    && h.number < |view.blocks|
    && Lower(h.hash) == Lower(view.blocks[h.number].hash)
    && h.timestamp == view.blocks[h.number].timestamp
  }

  predicate HoldsTransaction(b: Block, hash: string, status: nat) {
    Transaction(hash, status) in b.transactions
  }

  ghost predicate ReceiptOf(view: View, r: Receipt) {
    && r.blockNumber < |view.blocks|
    && Lower(r.blockHash) == Lower(view.blocks[r.blockNumber].hash)
    && HoldsTransaction(view.blocks[r.blockNumber], Lower(r.hash), r.status)
  }

  ghost predicate RecordOf(view: View, t: TransactionRecord) {
    if t.blockNumber.None? then t.blockHash.None?
    else
      && t.blockHash.Some?
      && t.blockNumber.value < |view.blocks|
      && Lower(t.blockHash.value) == Lower(view.blocks[t.blockNumber.value].hash)
      && exists status :: HoldsTransaction(view.blocks[t.blockNumber.value], Lower(t.hash), status)
  }

  /** Answers name canonical data; unless the node misdirects, they are also about what was asked. */
  ghost predicate HeaderAnswer(view: View, number: nat, h: Option<Header>, misdirects: bool) {
    && (h.Some? ==> HeaderOf(view, h.value))
    && (!misdirects ==> (h.Some? <==> number < |view.blocks|) && (h.Some? ==> h.value.number == number))
  }

  ghost predicate ReceiptAnswer(view: View, hash: string, r: Option<Receipt>, misdirects: bool) {
    && (r.Some? ==> ReceiptOf(view, r.value))
    && (!misdirects ==>
          && (r.Some? <==> Locate(view, Lower(hash)).Some?)
          && (r.Some? ==> Lower(r.value.hash) == Lower(hash)))
  }

  ghost predicate RecordAnswer(view: View, hash: string, t: Option<TransactionRecord>, misdirects: bool) {
    && (t.Some? ==> RecordOf(view, t.value))
    && (!misdirects ==>
          && (Locate(view, Lower(hash)).Some? ==> t.Some? && t.value.blockNumber.Some?)
          && (t.Some? ==> Lower(t.value.hash) == Lower(hash)))
  }

  /**
   * A remote node reached through one provider. `now` is the moment the caller has reached. A read
   * dispatched at `since` is answered from the view of any moment between then and now, so the
   * reads of one `Promise.all` are answered in any order. Each read may also fail, and `failures`
   * counts the reads that did.
   */
  class Node {
    const run: Run
    ghost const misdirects: bool
    var now: nat
    ghost var failures: nat

    constructor (run: Run, ghost misdirects: bool)
      requires |run| > 0 && forall t :: 0 <= t < |run| ==> Numbered(run[t])
      ensures Valid() && this.run == run && this.misdirects == misdirects && now == 0 && failures == 0
    {
      this.run := run;
      this.misdirects := misdirects;
      now := 0;
      failures := 0;
    }

    ghost predicate Valid()
      reads `now
    {
      now < |run| && forall t :: 0 <= t < |run| ==> Numbered(run[t])
    }

    /** Awaiting: any number of extensions and reorgs may happen meanwhile. */
    method Await()
      requires Valid()
      modifies this`now
      ensures Valid() && old(now) <= now
    {
      var later: nat :| now <= later < |run|;
      now := later;
    }

    method Moment(since: nat) returns (at: nat)
      requires Valid() && since <= now
      ensures since <= at <= now
    {
      at :| since <= at <= now;
    }

    method GetNetwork(since: nat) returns (answer: Rpc<nat>, ghost at: nat)
      requires Valid() && since <= now
      modifies `failures
      ensures since <= at <= now
      ensures failures == if answer.Unavailable? then old(failures) + 1 else old(failures)
      ensures answer.Answered? ==> answer.value == run[at].chainId
    {
      var moment := Moment(since);
      at := moment;
      if * {
        failures := failures + 1;
        return Unavailable, at;
      }
      answer := Answered(run[moment].chainId);
    }

    method GetBlock(number: nat, since: nat) returns (answer: Rpc<Option<Header>>, ghost at: nat)
      requires Valid() && since <= now
      modifies `failures
      ensures since <= at <= now
      ensures failures == if answer.Unavailable? then old(failures) + 1 else old(failures)
      ensures answer.Answered? ==> HeaderAnswer(run[at], number, answer.value, misdirects)
    {
      var moment := Moment(since);
      at := moment;
      if * {
        failures := failures + 1;
        return Unavailable, at;
      }
      var blocks := run[moment].blocks;
      answer := Answered(
        if number < |blocks| then Some(Header(number, blocks[number].hash, blocks[number].timestamp)) else None);
    }

    method GetLatestBlock(since: nat) returns (answer: Rpc<Option<Header>>, ghost at: nat)
      requires Valid() && since <= now
      modifies `failures
      ensures since <= at <= now
      ensures failures == if answer.Unavailable? then old(failures) + 1 else old(failures)
      ensures answer.Answered? ==> HeaderAnswer(run[at], |run[at].blocks| - 1, answer.value, misdirects)
    {
      var moment := Moment(since);
      at := moment;
      if * {
        failures := failures + 1;
        return Unavailable, at;
      }
      var blocks := run[moment].blocks;
      var head := blocks[|blocks| - 1];
      answer := Answered(Some(Header(|blocks| - 1, head.hash, head.timestamp)));
    }

    method GetTransactionReceipt(hash: string, since: nat) returns (answer: Rpc<Option<Receipt>>, ghost at: nat)
      requires Valid() && since <= now
      modifies `failures
      ensures since <= at <= now
      ensures failures == if answer.Unavailable? then old(failures) + 1 else old(failures)
      ensures answer.Answered? ==> ReceiptAnswer(run[at], hash, answer.value, misdirects)
    {
      var moment := Moment(since);
      at := moment;
      if * {
        failures := failures + 1;
        return Unavailable, at;
      }
      LowerIdempotent(hash);
      match Locate(run[moment], Lower(hash)) {
        case None => answer := Answered(None);
        case Some((number, transaction)) =>
          assert transaction == Transaction(transaction.hash, transaction.status);
          answer := Answered(Some(
            Receipt(transaction.hash, transaction.status, number, run[moment].blocks[number].hash)));
      }
    }

    method GetTransaction(hash: string, since: nat) returns (answer: Rpc<Option<TransactionRecord>>, ghost at: nat)
      requires Valid() && since <= now
      modifies `failures
      ensures since <= at <= now
      ensures failures == if answer.Unavailable? then old(failures) + 1 else old(failures)
      ensures answer.Answered? ==> RecordAnswer(run[at], hash, answer.value, misdirects)
    {
      var moment := Moment(since);
      at := moment;
      if * {
        failures := failures + 1;
        return Unavailable, at;
      }
      LowerIdempotent(hash);
      match Locate(run[moment], Lower(hash)) {
        case None =>
          if * {
            answer := Answered(None);
          } else {
            answer := Answered(Some(TransactionRecord(hash, None, None)));
          }
        case Some((number, transaction)) =>
          assert HoldsTransaction(run[moment].blocks[number], transaction.hash, transaction.status);
          answer := Answered(Some(
            TransactionRecord(transaction.hash, Some(number), Some(run[moment].blocks[number].hash))));
      }
    }

    /** `receipt.confirmations()` reads the head again and compares it with the receipt's block number. */
    method GetConfirmations(number: nat, since: nat) returns (answer: Rpc<int>, ghost at: nat)
      requires Valid() && since <= now
      modifies `failures
      ensures since <= at <= now
      ensures failures == if answer.Unavailable? then old(failures) + 1 else old(failures)
      ensures answer.Answered? ==> answer.value == Confirmations(run[at], number)
    {
      var moment := Moment(since);
      at := moment;
      if * {
        failures := failures + 1;
        return Unavailable, at;
      }
      answer := Answered(Confirmations(run[moment], number));
    }

    /** Contract state at a block number: it fails if no such block is canonical at that moment. */
    method GetState(number: nat, since: nat) returns (answer: Rpc<WorldState>, ghost at: nat)
      requires Valid() && since <= now
      modifies `failures
      ensures since <= at <= now
      ensures failures == if answer.Unavailable? && number < |run[at].blocks| then old(failures) + 1 else old(failures)
      ensures answer.Answered? ==> number < |run[at].blocks| && answer.value == run[at].blocks[number].state
    {
      var moment := Moment(since);
      at := moment;
      if number >= |run[moment].blocks| { return Unavailable, at; }
      if * {
        failures := failures + 1;
        return Unavailable, at;
      }
      answer := Answered(run[moment].blocks[number].state);
    }
  }
}
