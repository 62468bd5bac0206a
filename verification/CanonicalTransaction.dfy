/** Reorg-safe transaction resolution (backend/src/lib/canonical-chain-transaction.ts). */
module CanonicalTransaction {
  import opened Wrappers
  import opened Text
  import opened Chain
  import opened NetworkIdentity

  datatype Failure =
    | RpcUnavailable
    | NotMined
    | HashMismatch
    | Reverted
    | InsufficientConfirmations(confirmations: int)
    | CanonicalMismatch
    | BlockNotFound

  datatype Resolution = Resolution(
    receipt: Receipt, transaction: TransactionRecord, block: Header, confirmations: int)

  /** `assertReceipt`: what is wrong with a receipt, if anything. */
  function ReceiptFault(receipt: Receipt, requestedHash: string): Option<Failure> {
    if Lower(receipt.hash) != requestedHash then Some(HashMismatch)
    else if receipt.status != 1 then Some(Reverted)
    else None
  }

  /** The moments at which the decisive answers were taken. */
  datatype Moments = Moments(probe: nat, probeDepth: nat, receipt: nat, depth: nat, block: nat)

  /**
   * What a successful call has observed: the probed receipt was deep enough before the receipt was
   * read again; the block `home` of that second receipt holds the requested successful transaction;
   * its depth was then counted; and last, the block canonical at its number had the same hash.
   */
  ghost predicate Observed(
    run: Run, from: nat, to: nat, hash: string, minimum: int, r: Resolution, at: Moments, probe: Block, home: Block)
  {
    && from <= at.probe <= at.probeDepth <= at.receipt <= at.depth <= at.block <= to < |run|
    && SuccessAt(run[at.probe], probe, hash)
    && Confirmations(run[at.probeDepth], probe.number) >= minimum
    && SuccessAt(run[at.receipt], home, hash)
    && r.receipt.blockNumber == r.block.number && Lower(r.receipt.blockHash) == Lower(r.block.hash)
    && r.transaction.blockNumber == Some(r.receipt.blockNumber)
    && r.transaction.blockHash.Some? && Lower(r.transaction.blockHash.value) == Lower(home.hash)
    && Lower(r.receipt.hash) == Lower(r.transaction.hash) == Lower(hash) && r.receipt.status == 1
    && r.receipt.blockNumber == home.number && Lower(r.receipt.blockHash) == Lower(home.hash)
    && HeaderOf(run[at.block], r.block)
    && r.confirmations == Confirmations(run[at.depth], home.number) >= minimum
  }

  /** Block `b` is canonical and holds the transaction with status 1. */
  ghost predicate SuccessAt(view: View, b: Block, hash: string) {
    Canonical(view, b) && HoldsTransaction(b, Lower(hash), 1)
  }

  /** Block `b` is canonical and holds the transaction with a failure status. */
  ghost predicate RevertedAt(view: View, b: Block, hash: string) {
    Canonical(view, b) && exists status :: status != 1 && HoldsTransaction(b, Lower(hash), status)
  }

  /** What each failure says about the chain, with the block and the moments it was read from; `failed` is whether a read failed. */
  ghost predicate Explained(
    run: Run, from: nat, to: nat, hash: string, minimum: int, misdirects: bool, failed: bool, reason: Failure, at: Moments,
    home: Block)
  {
    && from <= at.receipt <= at.depth <= to < |run|
    && match reason
       case RpcUnavailable => failed
       case NotMined => misdirects || Locate(run[at.receipt], Lower(hash)).None?
       case HashMismatch => misdirects
       case Reverted => RevertedAt(run[at.receipt], home, hash)
       case InsufficientConfirmations(count) =>
         SuccessAt(run[at.receipt], home, hash) && count == Confirmations(run[at.depth], home.number) < minimum
       case _ => SuccessAt(run[at.receipt], home, hash) && !Kept(run, from, to, misdirects, home)
  }

  /** What a call leaves behind: its evidence or its reason, and RPC_UNAVAILABLE exactly when a read failed. */
  ghost predicate Accounted(
    run: Run, from: nat, to: nat, hash: string, minimum: int, misdirects: bool, failed: bool,
    result: Result<Resolution, Failure>, at: Moments, probe: Block, home: Block)
  {
    && (failed ==> result == Err(RpcUnavailable))
    && (result.Ok? ==> Observed(run, from, to, hash, minimum, result.value, at, probe, home))
    && (result.Err? ==> Explained(run, from, to, hash, minimum, misdirects, failed, result.error, at, home))
  }

  /** The receipt and the transaction do not point at the same block. */
  predicate Disagree(r: Receipt, t: TransactionRecord) {
    || t.blockNumber != Some(r.blockNumber)
    || r.blockHash == ""
    || t.blockHash.None?
    || Lower(r.blockHash) != Lower(t.blockHash.value)
  }

  /** The block found at the receipt's number is not the receipt's. */
  predicate Replaced(r: Receipt, h: Option<Header>) {
    h.None? || h.value.number != r.blockNumber || Lower(h.value.hash) != Lower(r.blockHash)
  }

  /** A chain holds a transaction in one block and with one status. */
  lemma OnlyHome(view: View, home: Block, hash: string, status: nat)
    requires WellFormed(view) && Canonical(view, home) && HoldsTransaction(home, Lower(hash), status)
    ensures Locate(view, Lower(hash)) == Some((home.number, Transaction(Lower(hash), status)))
  {
  }

  /** The record of a mined transaction names its block. */
  lemma RecordOfHome(view: View, b: Block, hash: string, mined: nat, record: Option<TransactionRecord>)
    requires WellFormed(view) && Canonical(view, b) && HoldsTransaction(b, Lower(hash), mined)
    requires RecordAnswer(view, hash, record, false)
    ensures record.Some? && record.value.blockNumber == Some(b.number) && record.value.blockHash.Some?
    ensures Lower(record.value.hash) == Lower(hash) && Lower(record.value.blockHash.value) == b.hash
  {
    OnlyHome(view, b, hash, mined);
    var t := record.value;
    var status :| HoldsTransaction(view.blocks[t.blockNumber.value], Lower(t.hash), status);
    OnlyHome(view, view.blocks[t.blockNumber.value], hash, status);
    assert HashIsNormal(b.hash);
  }

  /** A receipt and a transaction record that disagree were answered from different views: the receipt's block was reorganised away. */
  lemma DisagreementMeansMotion(
    run: Run, from: nat, to: nat, hash: string, r: Receipt, at: nat, t: TransactionRecord, tAt: nat, misdirects: bool)
    requires from <= at <= to < |run| && from <= tAt <= to
    requires ReceiptAnswer(run[at], hash, Some(r), misdirects) && RecordAnswer(run[tAt], hash, Some(t), misdirects)
    ensures Disagree(r, t) ==> !Kept(run, from, to, misdirects, run[at].blocks[r.blockNumber])
  {
    var home := run[at].blocks[r.blockNumber];
    if Kept(run, from, to, misdirects, home) {
      assert Canonical(run[at], home) && Canonical(run[tAt], home);
      RecordOfHome(run[tAt], home, hash, r.status, Some(t));
      assert HashIsNormal(home.hash);
    }
  }

  /** A receipt's block that is missing or different at its number was reorganised away. */
  lemma ReplacementMeansMotion(
    run: Run, from: nat, to: nat, r: Receipt, at: nat, h: Option<Header>, hAt: nat, misdirects: bool)
    requires from <= at <= to < |run| && from <= hAt <= to
    requires ReceiptOf(run[at], r) && HeaderAnswer(run[hAt], r.blockNumber, h, misdirects)
    ensures Replaced(r, h) ==> !Kept(run, from, to, misdirects, run[at].blocks[r.blockNumber])
  {
    var home := run[at].blocks[r.blockNumber];
    if Kept(run, from, to, misdirects, home) {
      assert Canonical(run[at], home) && Canonical(run[hAt], home);
    }
  }

  /** The first half of `getCanonicalTransaction`: a successful receipt that is deep enough already. */
  method ProbeReceipt(provider: Node, transactionHash: string, minimumConfirmations: int)
    returns (fault: Option<Failure>, ghost at: Moments, ghost probe: Block)
    requires provider.Valid()
    modifies provider
    ensures provider.Valid() && old(provider.now) <= provider.now && old(provider.failures) <= provider.failures
    ensures old(provider.failures) < provider.failures ==> fault == Some(RpcUnavailable)
    ensures fault.None? ==>
              && old(provider.now) <= at.probe <= at.probeDepth <= provider.now
              && SuccessAt(provider.run[at.probe], probe, transactionHash)
              && Confirmations(provider.run[at.probeDepth], probe.number) >= minimumConfirmations
    ensures fault.Some? ==>
              && !fault.value.CanonicalMismatch? && !fault.value.BlockNotFound?
              && Explained(provider.run, old(provider.now), provider.now, transactionHash, minimumConfirmations,
                           provider.misdirects, old(provider.failures) < provider.failures, fault.value, at, probe)
  {
    var sent := provider.now;
    provider.Await();
    var receipt, receiptAt := provider.GetTransactionReceipt(transactionHash, sent);
    at := Moments(receiptAt, receiptAt, receiptAt, receiptAt, receiptAt);
    probe := provider.run[0].blocks[0];
    if receipt.Unavailable? { return Some(RpcUnavailable), at, probe; }
    if receipt.value.None? { return Some(NotMined), at, probe; }
    var initialReceipt := receipt.value.value;
    probe := provider.run[receiptAt].blocks[initialReceipt.blockNumber];
    fault := ReceiptFault(initialReceipt, Lower(transactionHash));
    if fault.Some? { return; }

    sent := provider.now;
    provider.Await();
    var confirmations, depthAt := provider.GetConfirmations(initialReceipt.blockNumber, sent);
    at := at.(probeDepth := depthAt, depth := depthAt);
    if confirmations.Unavailable? { return Some(RpcUnavailable), at, probe; }
    if confirmations.value < minimumConfirmations {
      return Some(InsufficientConfirmations(confirmations.value)), at, probe;
    }
    return None, at, probe;
  }

  /** The second, deliberate read of the receipt, in flight together with the transaction itself. */
  method RefetchReceipt(provider: Node, transactionHash: string)
    returns (result: Result<(Receipt, TransactionRecord), Failure>, ghost receiptAt: nat, ghost recordAt: nat, ghost home: Block)
    requires provider.Valid()
    modifies provider
    ensures provider.Valid() && old(provider.now) <= provider.now && old(provider.failures) <= provider.failures
    ensures old(provider.now) <= receiptAt <= provider.now && old(provider.now) <= recordAt <= provider.now
    ensures result == Err(RpcUnavailable) <==> old(provider.failures) < provider.failures
    ensures result.Ok? ==>
              && ReceiptAnswer(provider.run[receiptAt], transactionHash, Some(result.value.0), provider.misdirects)
              && RecordAnswer(provider.run[recordAt], transactionHash, Some(result.value.1), provider.misdirects)
              && ReceiptFault(result.value.0, Lower(transactionHash)).None?
              && Lower(result.value.1.hash) == Lower(transactionHash)
              && home == provider.run[receiptAt].blocks[result.value.0.blockNumber]
    ensures result.Err? && result != Err(RpcUnavailable) ==>
              match result.error
              case NotMined => provider.misdirects || Locate(provider.run[receiptAt], Lower(transactionHash)).None?
              case HashMismatch => provider.misdirects
              case Reverted => RevertedAt(provider.run[receiptAt], home, transactionHash)
              case _ => false
  {
    var requestedHash := Lower(transactionHash);
    var sent := provider.now;
    provider.Await();
    var second, secondAt := provider.GetTransactionReceipt(transactionHash, sent);
    var record, thirdAt := provider.GetTransaction(transactionHash, sent);
    receiptAt, recordAt, home := secondAt, thirdAt, provider.run[0].blocks[0];
    if second.Unavailable? || record.Unavailable? { return Err(RpcUnavailable), receiptAt, recordAt, home; }
    if second.value.None? { return Err(NotMined), receiptAt, recordAt, home; }
    if record.value.None? { return Err(NotMined), recordAt, recordAt, home; }
    var receipt, transaction := second.value.value, record.value.value;
    home := provider.run[receiptAt].blocks[receipt.blockNumber];
    var fault := ReceiptFault(receipt, requestedHash);
    if fault.Some? { return Err(fault.value), receiptAt, recordAt, home; }
    if Lower(transaction.hash) != requestedHash { return Err(HashMismatch), receiptAt, recordAt, home; }
    return Ok((receipt, transaction)), receiptAt, recordAt, home;
  }

  /** The checks on the second receipt: its depth, its agreement with the transaction, and last the block at its number. */
  method ConfirmReceipt(provider: Node, receipt: Receipt, transaction: TransactionRecord, minimumConfirmations: int)
    returns (result: Result<(Header, int), Failure>, ghost depthAt: nat, ghost blockAt: nat, ghost found: Option<Header>)
    requires provider.Valid()
    modifies provider
    ensures provider.Valid() && old(provider.failures) <= provider.failures
    ensures old(provider.now) <= depthAt <= blockAt <= provider.now
    ensures result == Err(RpcUnavailable) <==> old(provider.failures) < provider.failures
    ensures result.Ok? ==>
              && result.value.1 == Confirmations(provider.run[depthAt], receipt.blockNumber) >= minimumConfirmations
              && !Disagree(receipt, transaction)
              && found == Some(result.value.0) && !Replaced(receipt, found)
              && HeaderAnswer(provider.run[blockAt], receipt.blockNumber, found, provider.misdirects)
    ensures result.Err? && result != Err(RpcUnavailable) ==>
              match result.error
              case InsufficientConfirmations(count) =>
                count == Confirmations(provider.run[depthAt], receipt.blockNumber) < minimumConfirmations
              case CanonicalMismatch =>
                || Disagree(receipt, transaction)
                || (Replaced(receipt, found) && HeaderAnswer(provider.run[blockAt], receipt.blockNumber, found, provider.misdirects))
              case BlockNotFound => found.None? && HeaderAnswer(provider.run[blockAt], receipt.blockNumber, found, provider.misdirects)
              case _ => false
  {
    var sent := provider.now;
    provider.Await();
    found := None;
    var confirmations, countedAt := provider.GetConfirmations(receipt.blockNumber, sent);
    depthAt, blockAt := countedAt, countedAt;
    if confirmations.Unavailable? { return Err(RpcUnavailable), depthAt, blockAt, found; }
    if confirmations.value < minimumConfirmations {
      return Err(InsufficientConfirmations(confirmations.value)), depthAt, blockAt, found;
    }

    if || transaction.blockNumber != Some(receipt.blockNumber)
       || receipt.blockHash == ""
       || transaction.blockHash.None?
       || Lower(receipt.blockHash) != Lower(transaction.blockHash.value)
    {
      return Err(CanonicalMismatch), depthAt, blockAt, found;
    }

    sent := provider.now;
    provider.Await();
    var header, readAt := provider.GetBlock(receipt.blockNumber, sent);
    blockAt := readAt;
    if header.Unavailable? { return Err(RpcUnavailable), depthAt, blockAt, found; }
    found := header.value;
    if header.value.None? { return Err(BlockNotFound), depthAt, blockAt, found; }
    var block := header.value.value;
    if block.number != receipt.blockNumber || Lower(block.hash) != Lower(receipt.blockHash) {
      return Err(CanonicalMismatch), depthAt, blockAt, found;
    }
    return Ok((block, confirmations.value)), depthAt, blockAt, found;
  }

  /** `getCanonicalTransaction`. */
  method GetCanonicalTransaction(provider: Node, transactionHash: string, minimumConfirmations: int)
    returns (result: Result<Resolution, Failure>, ghost at: Moments, ghost probe: Block, ghost home: Block)
    requires provider.Valid()
    modifies provider
    ensures provider.Valid() && old(provider.now) <= provider.now && old(provider.failures) <= provider.failures
    ensures result == Err(RpcUnavailable) <==> old(provider.failures) < provider.failures
    ensures Accounted(provider.run, old(provider.now), provider.now, transactionHash, minimumConfirmations, provider.misdirects,
                      old(provider.failures) < provider.failures, result, at, probe, home)
  {
    ghost var run, start := provider.run, provider.now;
    var probeFault, probeAt, probed := ProbeReceipt(provider, transactionHash, minimumConfirmations);
    at, probe, home := probeAt, probed, probed;
    if probeFault.Some? { return Err(probeFault.value), at, probe, home; }

    var refetched, receiptAt, recordAt, carrier := RefetchReceipt(provider, transactionHash);
    at, home := at.(receipt := receiptAt, depth := receiptAt), carrier;
    if refetched.Err? { return Err(refetched.error), at, probe, home; }
    var (receipt, transaction) := refetched.value;

    var confirmed, depthAt, blockAt, found := ConfirmReceipt(provider, receipt, transaction, minimumConfirmations);
    at := at.(depth := depthAt, block := blockAt);
    if confirmed.Err? {
      if confirmed.error.CanonicalMismatch? || confirmed.error.BlockNotFound? {
        MismatchMeansMotion(run, start, provider.now, transactionHash, receipt, receiptAt, transaction, recordAt, found, blockAt,
                            provider.misdirects);
      }
      return Err(confirmed.error), at, probe, home;
    }
    var (block, confirmations) := confirmed.value;
    return Ok(Resolution(receipt, transaction, block, confirmations)), at, probe, home;
  }

  lemma MismatchMeansMotion(
    run: Run, from: nat, to: nat, hash: string, r: Receipt, at: nat, t: TransactionRecord, tAt: nat, h: Option<Header>, hAt: nat,
    misdirects: bool)
    requires from <= at <= to < |run| && from <= tAt <= to && from <= hAt <= to
    requires ReceiptAnswer(run[at], hash, Some(r), misdirects) && RecordAnswer(run[tAt], hash, Some(t), misdirects)
    requires Disagree(r, t) || (Replaced(r, h) && HeaderAnswer(run[hAt], r.blockNumber, h, misdirects))
    ensures !Kept(run, from, to, misdirects, run[at].blocks[r.blockNumber])
  {
    if Disagree(r, t) {
      DisagreementMeansMotion(run, from, to, hash, r, at, t, tAt, misdirects);
    } else {
      ReplacementMeansMotion(run, from, to, r, at, h, hAt, misdirects);
    }
  }

  // ---------------------------------------------------------------- what a resolution guarantees

  /** The home block was canonical at every moment from the receipt read to the block read. */
  lemma ResolvedBlockWasPinned(
    run: Run, from: nat, to: nat, hash: string, minimum: int, r: Resolution, at: Moments, probe: Block, home: Block)
    requires Lawful(run) && Observed(run, from, to, hash, minimum, r, at, probe, home)
    ensures forall t :: at.receipt <= t <= at.block ==> SuccessAt(run[t], home, hash)
    ensures r.block.timestamp == home.timestamp
  {
    SameHashPinsBlock(run, home, at.receipt, run[at.block].blocks[r.block.number], at.block);
  }

  /**
   * Finality over whole runs: the returned transaction is canonical, with the required depth, at the
   * moment its depth was counted, and it is canonical at every later moment of the run.
   */
  lemma ResolvedTransactionIsFinal(
    run: Run, from: nat, to: nat, hash: string, minimum: int, r: Resolution, at: Moments, probe: Block, home: Block)
    requires Lawful(run) && FinalAt(run, minimum)
    requires Observed(run, from, to, hash, minimum, r, at, probe, home)
    ensures at.depth <= to && Confirmations(run[at.depth], home.number) >= minimum
    ensures forall t :: at.depth <= t < |run| ==> SuccessAt(run[t], home, hash)
  {
    ResolvedBlockWasPinned(run, from, to, hash, minimum, r, at, probe, home);
    assert SuccessAt(run[at.depth], home, hash);
  }

  /**
   * The transaction stays as deep as it was returned exactly while no later head falls below the head it was counted from;
   * in any case it stays canonical.
   */
  lemma ResolvedDepthLasts(
    run: Run, from: nat, to: nat, hash: string, minimum: int, r: Resolution, at: Moments, probe: Block, home: Block)
    requires Lawful(run) && FinalAt(run, minimum)
    requires Observed(run, from, to, hash, minimum, r, at, probe, home)
    ensures (forall t :: at.depth <= t < |run| ==> |run[at.depth].blocks| <= |run[t].blocks|)
            <==> (forall t :: at.depth <= t < |run| ==>
                    SuccessAt(run[t], home, hash) && Confirmations(run[t], home.number) >= r.confirmations)
  {
    ResolvedTransactionIsFinal(run, from, to, hash, minimum, r, at, probe, home);
    if forall t :: at.depth <= t < |run| ==> Confirmations(run[t], home.number) >= r.confirmations {
      forall t | at.depth <= t < |run|
        ensures |run[at.depth].blocks| <= |run[t].blocks|
      {
        assert Confirmations(run[t], home.number) >= r.confirmations;
      }
    }
  }

  /** What a chain that stands still answers about a transaction. */
  function Verdict(view: View, hash: string, minimum: int): Option<Failure> {
    match Locate(view, Lower(hash))
    case None => Some(NotMined)
    case Some((number, transaction)) =>
      if transaction.status != 1 then Some(Reverted)
      else if Confirmations(view, number) < minimum then Some(InsufficientConfirmations(Confirmations(view, number)))
      else None
  }

  /** On a settled chain a call without a failed read agrees with the verdict in both directions, reason included. */
  lemma SettledResolutionIsTheVerdict(
    run: Run, from: nat, to: nat, hash: string, minimum: int, misdirects: bool, failed: bool,
    result: Result<Resolution, Failure>, at: Moments, probe: Block, home: Block)
    requires Settled(run, from, to, misdirects)
    requires Accounted(run, from, to, hash, minimum, misdirects, failed, result, at, probe, home)
    ensures failed <==> result == Err(RpcUnavailable)
    ensures !failed ==> (result.Ok? <==> Verdict(run[from], hash, minimum).None?)
    ensures !failed && result.Err? ==> Verdict(run[from], hash, minimum) == Some(result.error)
  {
    if !failed {
      var view := run[from];
      assert run[at.receipt] == view && run[at.depth] == view && MinedOnce(view);
      if result.Ok? {
        OnlyHome(view, home, hash, 1);
      } else if result.error.Reverted? {
        var status :| status != 1 && HoldsTransaction(home, Lower(hash), status);
        OnlyHome(view, home, hash, status);
      } else if result.error.InsufficientConfirmations? {
        OnlyHome(view, home, hash, 1);
      } else if result.error.CanonicalMismatch? || result.error.BlockNotFound? {
        assert Kept(run, from, to, misdirects, home);
      }
    }
  }

  /**
   * The chain need not stand still for a call to succeed: while the block of a successful transaction stays canonical and no read
   * fails, only a count below the minimum stops the call, whatever else is mined or reorganised above that block.
   */
  lemma KeptTransactionResolves(
    run: Run, from: nat, to: nat, hash: string, minimum: int, misdirects: bool, result: Result<Resolution, Failure>, at: Moments,
    probe: Block, home: Block, b: Block)
    requires Kept(run, from, to, misdirects, b) && HoldsTransaction(b, Lower(hash), 1)
    requires Accounted(run, from, to, hash, minimum, misdirects, false, result, at, probe, home)
    ensures home == b
    ensures result.Err? ==> result == Err(InsufficientConfirmations(Confirmations(run[at.depth], b.number)))
    ensures (forall t :: from <= t <= to ==> Confirmations(run[t], b.number) >= minimum) ==> result.Ok?
  {
    OnlyHome(run[at.receipt], b, hash, 1);
    if result.Err? && result.error.Reverted? {
      var status :| status != 1 && HoldsTransaction(home, Lower(hash), status);
      OnlyHome(run[at.receipt], home, hash, status);
    } else {
      OnlyHome(run[at.receipt], home, hash, 1);
    }
  }

  /**
   * The head itself may still move back: dropping the newest blocks of any chain is a lawful reorg
   * that leaves every kept block canonical and final, yet with fewer confirmations than before.
   */
  lemma DepthMayShrink(run: Run, blocks: set<Block>, b: Block)
    requires LawfulPair(run, blocks)
    requires |run[1].blocks| < |run[0].blocks|
    requires forall c :: Canonical(run[0], c) && c.number < |run[1].blocks| ==> Canonical(run[1], c)
    requires Canonical(run[1], b) && Canonical(run[0], b)
    ensures Lawful(run) && FinalAt(run, |run[0].blocks| - |run[1].blocks| + 1)
    ensures Confirmations(run[1], b.number) < Confirmations(run[0], b.number)
  {
    LawfulPairIsLawful(run, blocks);
  }

  // ---------------------------------------------------------------- the recheck before writes

  datatype SnapshotMoments = SnapshotMoments(network: nat, anchor: nat, block: nat, receipt: nat, record: nat, depth: nat)

  /** The block at `number` has this hash and holds the transaction with status 1. */
  ghost predicate SuccessUnder(view: View, number: nat, blockHash: string, hash: string) {
    && number < |view.blocks|
    && Lower(view.blocks[number].hash) == Lower(blockHash)
    && HoldsTransaction(view.blocks[number], Lower(hash), 1)
  }

  /** What a passed recheck has observed. The depth is counted strictly after the other five answers. */
  ghost predicate SnapshotSeen(
    run: Run, from: nat, to: nat, identity: Identity, number: nat, blockHash: string, at: SnapshotMoments, home: Block)
  {
    && from <= at.network <= at.depth <= to < |run| && from <= at.anchor <= at.depth && from <= at.block <= at.depth
    && run[at.network].chainId == identity.chainId
    && identity.anchorBlock < |run[at.anchor].blocks|
    && Lower(run[at.anchor].blocks[identity.anchorBlock].hash) == identity.anchorHash
    && Canonical(run[at.block], home) && home.number == number && Lower(home.hash) == Lower(blockHash)
  }

  /** The block at `number` has this hash and holds the transaction. */
  ghost predicate RecordedUnder(view: View, number: nat, blockHash: string, hash: string) {
    && number < |view.blocks|
    && Lower(view.blocks[number].hash) == Lower(blockHash)
    && exists status :: HoldsTransaction(view.blocks[number], Lower(hash), status)
  }

  /** Receipt and record each showed the transaction in the block, at their own moments. */
  ghost predicate TransactionSeen(
    run: Run, from: nat, number: nat, blockHash: string, hash: string, minimum: int, at: SnapshotMoments)
  {
    && from <= at.receipt <= at.depth < |run| && from <= at.record <= at.depth
    && SuccessUnder(run[at.receipt], number, blockHash, hash)
    && RecordedUnder(run[at.record], number, blockHash, hash)
    && Confirmations(run[at.depth], number) >= minimum
  }

  /** On a chain that stands still, exactly this is rechecked. */
  ghost predicate SnapshotHolds(view: View, identity: Identity, number: nat, blockHash: Option<string>, hash: string) {
    && view.chainId == identity.chainId
    && identity.anchorBlock < |view.blocks| && view.blocks[identity.anchorBlock].hash == identity.anchorHash
    && blockHash.Some? && number < |view.blocks| && view.blocks[number].hash == Lower(blockHash.value)
    && (hash != "" ==> HoldsTransaction(view.blocks[number], Lower(hash), 1))
  }

  /** A faithful node's chain holds all of this from one moment to another, whatever else is mined or reorganised meanwhile. */
  ghost predicate SnapshotKept(
    run: Run, from: nat, to: nat, misdirects: bool, identity: Identity, number: nat, blockHash: Option<string>, hash: string)
  {
    && !misdirects && from <= to < |run|
    && forall t :: from <= t <= to ==> WellFormed(run[t]) && SnapshotHolds(run[t], identity, number, blockHash, hash)
  }

  /** What a recheck leaves behind: what it saw on the chain unless it failed on a mismatch, and the reason. */
  ghost predicate Rechecked(
    run: Run, from: nat, to: nat, identity: Identity, number: nat, blockHash: Option<string>, hash: string, minimum: Option<int>,
    misdirects: bool, failed: bool, fault: Option<Failure>, at: SnapshotMoments, home: Block)
  {
    && (failed ==> fault == Some(RpcUnavailable))
    && match fault
       case None =>
         && blockHash.Some? && SnapshotSeen(run, from, to, identity, number, blockHash.value, at, home)
         && (hash != "" ==> minimum.Some? && TransactionSeen(run, from, number, blockHash.value, hash, minimum.value, at))
       case Some(RpcUnavailable) => failed
       case Some(CanonicalMismatch) => !SnapshotKept(run, from, to, misdirects, identity, number, blockHash, hash)
       case Some(InsufficientConfirmations(count)) =>
         && blockHash.Some? && SnapshotSeen(run, from, to, identity, number, blockHash.value, at, home)
         && hash != "" && TransactionSeen(run, from, number, blockHash.value, hash, count, at)
         && count == Confirmations(run[at.depth], number) && (minimum.Some? ==> count < minimum.value)
       case _ => false
  }

  /** The five answers of the recheck; the last two stay `None` when no transaction is given. */
  datatype SnapshotAnswers = SnapshotAnswers(
    chainId: nat, anchor: Option<Header>, block: Option<Header>,
    receipt: Option<Receipt>, record: Option<TransactionRecord>)

  ghost predicate AnswersTaken(
    run: Run, since: nat, to: nat, misdirects: bool, identity: Identity, number: nat, hash: string,
    answers: SnapshotAnswers, at: SnapshotMoments)
  {
    && since <= at.network <= to < |run| && answers.chainId == run[at.network].chainId
    && since <= at.anchor <= to && HeaderAnswer(run[at.anchor], identity.anchorBlock, answers.anchor, misdirects)
    && since <= at.block <= to && HeaderAnswer(run[at.block], number, answers.block, misdirects)
    && (hash != "" ==>
          && since <= at.receipt <= to && ReceiptAnswer(run[at.receipt], hash, answers.receipt, misdirects)
          && since <= at.record <= to && RecordAnswer(run[at.record], hash, answers.record, misdirects))
  }

  /** `Promise.all` over reads that are all in flight since the same moment, so answered in any order. */
  method ReadSnapshot(provider: Node, since: nat, identity: Identity, blockNumber: nat, hash: string)
    returns (answers: Rpc<SnapshotAnswers>, ghost at: SnapshotMoments)
    requires provider.Valid() && since <= provider.now
    modifies provider`failures
    ensures old(provider.failures) <= provider.failures
    ensures answers.Unavailable? <==> old(provider.failures) < provider.failures
    ensures answers.Answered? ==>
              AnswersTaken(provider.run, since, provider.now, provider.misdirects, identity, blockNumber, hash, answers.value, at)
  {
    var network, networkAt := provider.GetNetwork(since);
    var anchor, anchorAt := provider.GetBlock(identity.anchorBlock, since);
    var block, blockAt := provider.GetBlock(blockNumber, since);
    at := SnapshotMoments(networkAt, anchorAt, blockAt, blockAt, blockAt, provider.now);
    var receipt: Rpc<Option<Receipt>>, record: Rpc<Option<TransactionRecord>> := Answered(None), Answered(None);
    if hash != "" {
      ghost var receiptAt, recordAt;
      receipt, receiptAt := provider.GetTransactionReceipt(hash, since);
      record, recordAt := provider.GetTransaction(hash, since);
      at := at.(receipt := receiptAt, record := recordAt);
    }
    if network.Unavailable? || anchor.Unavailable? || block.Unavailable? || receipt.Unavailable? || record.Unavailable? {
      return Unavailable, at;
    }
    answers := Answered(SnapshotAnswers(network.value, anchor.value, block.value, receipt.value, record.value));
  }

  /** The checks on the five answers. An empty transaction hash counts as none given. */
  predicate AnswersAgree(a: SnapshotAnswers, identity: Identity, number: nat, blockHash: Option<string>, hash: string) {
    && Matches(identity, a.chainId, a.anchor)
    && a.block.Some? && a.block.value.number == number
    && blockHash.Some? && Lower(a.block.value.hash) == Lower(blockHash.value)
    && (hash != "" ==>
          && a.receipt.Some? && a.record.Some?
          && Lower(a.receipt.value.hash) == Lower(hash)
          && a.receipt.value.status == 1
          && Lower(a.record.value.hash) == Lower(hash)
          && a.receipt.value.blockNumber == number
          && a.record.value.blockNumber == Some(number)
          && Lower(a.receipt.value.blockHash) == Lower(blockHash.value)
          && a.record.value.blockHash.Some? && Lower(a.record.value.blockHash.value) == Lower(blockHash.value))
  }

  /** While the chain holds the snapshot, the checks pass, in whatever order the reads are answered. */
  lemma KeptAnswersAgree(
    run: Run, since: nat, to: nat, misdirects: bool, identity: Identity, number: nat, blockHash: Option<string>, hash: string,
    answers: SnapshotAnswers, at: SnapshotMoments)
    requires AnswersTaken(run, since, to, misdirects, identity, number, hash, answers, at)
    requires SnapshotKept(run, since, to, misdirects, identity, number, blockHash, hash)
    ensures AnswersAgree(answers, identity, number, blockHash, hash)
  {
    assert SnapshotHolds(run[at.anchor], identity, number, blockHash, hash);
    assert SnapshotHolds(run[at.block], identity, number, blockHash, hash);
    assert HashIsNormal(run[at.anchor].blocks[identity.anchorBlock].hash);
    assert HashIsNormal(run[at.block].blocks[number].hash);
    if hash != "" {
      assert SnapshotHolds(run[at.receipt], identity, number, blockHash, hash);
      assert SnapshotHolds(run[at.record], identity, number, blockHash, hash);
      ReceiptOfHome(run[at.receipt], run[at.receipt].blocks[number], hash, answers.receipt);
      RecordOfHome(run[at.record], run[at.record].blocks[number], hash, 1, answers.record);
    }
  }

  /** The receipt of a mined successful transaction names its block. */
  lemma ReceiptOfHome(view: View, b: Block, hash: string, receipt: Option<Receipt>)
    requires WellFormed(view) && Canonical(view, b) && HoldsTransaction(b, Lower(hash), 1)
    requires ReceiptAnswer(view, hash, receipt, false)
    ensures receipt.Some? && receipt.value.blockNumber == b.number && receipt.value.status == 1
    ensures Lower(receipt.value.hash) == Lower(hash) && Lower(receipt.value.blockHash) == b.hash
  {
    OnlyHome(view, b, hash, 1);
    OnlyHome(view, view.blocks[receipt.value.blockNumber], hash, receipt.value.status);
    assert HashIsNormal(b.hash);
  }

  /** On a settled chain the checks pass exactly when the chain holds the snapshot. */
  lemma SettledAnswersAgree(
    run: Run, since: nat, to: nat, misdirects: bool, identity: Identity, number: nat, blockHash: Option<string>, hash: string,
    answers: SnapshotAnswers, at: SnapshotMoments)
    requires Settled(run, since, to, misdirects)
    requires AnswersTaken(run, since, to, misdirects, identity, number, hash, answers, at)
    ensures AnswersAgree(answers, identity, number, blockHash, hash) <==> SnapshotHolds(run[to], identity, number, blockHash, hash)
  {
    var view := run[to];
    assert view == run[at.network] == run[at.anchor] == run[at.block];
    assert forall i :: 0 <= i < |view.blocks| ==> HashIsNormal(view.blocks[i].hash);
    if SnapshotHolds(view, identity, number, blockHash, hash) {
      assert forall t :: since <= t <= to ==> run[t] == view;
      KeptAnswersAgree(run, since, to, misdirects, identity, number, blockHash, hash, answers, at);
    } else if hash != "" {
      assert view == run[at.receipt];
    }
  }

  /** What five answers that agree have shown. */
  lemma AgreementIsSeen(
    run: Run, since: nat, to: nat, misdirects: bool, identity: Identity, number: nat, blockHash: Option<string>, hash: string,
    answers: SnapshotAnswers, at: SnapshotMoments)
    requires AnswersTaken(run, since, to, misdirects, identity, number, hash, answers, at)
    requires AnswersAgree(answers, identity, number, blockHash, hash)
    ensures number < |run[at.block].blocks| && blockHash.Some? && since <= to
    ensures run[at.block].blocks[number].number == number ==>
              SnapshotSeen(run, since, to, identity, number, blockHash.value, at.(depth := to), run[at.block].blocks[number])
    ensures hash != "" ==>
              && SuccessUnder(run[at.receipt], number, blockHash.value, hash)
              && RecordedUnder(run[at.record], number, blockHash.value, hash)
              && answers.receipt.Some? && answers.receipt.value.blockNumber == number
  {
  }

  /** `assertCanonicalChainSnapshot`; the result is the failure it throws, if any. */
  method AssertCanonicalChainSnapshot(
    provider: Node, identity: Identity, blockNumber: nat, blockHash: Option<string>, transactionHash: string,
    minimumConfirmations: Option<int>)
    returns (fault: Option<Failure>, ghost at: SnapshotMoments, ghost home: Block)
    requires provider.Valid()
    modifies provider
    ensures provider.Valid() && old(provider.now) <= provider.now && old(provider.failures) <= provider.failures
    ensures fault == Some(RpcUnavailable) <==> old(provider.failures) < provider.failures
    ensures Rechecked(provider.run, old(provider.now), provider.now, identity, blockNumber, blockHash, transactionHash,
                      minimumConfirmations, provider.misdirects, old(provider.failures) < provider.failures, fault, at, home)
  {
    ghost var run, start := provider.run, provider.now;
    home := run[0].blocks[0];
    var sent := provider.now;
    provider.Await();
    var answers, taken := ReadSnapshot(provider, sent, identity, blockNumber, transactionHash);
    at := taken.(depth := provider.now);
    if answers.Unavailable? { return Some(RpcUnavailable), at, home; }
    if !AnswersAgree(answers.value, identity, blockNumber, blockHash, transactionHash) {
      if SnapshotKept(run, start, provider.now, provider.misdirects, identity, blockNumber, blockHash, transactionHash) {
        KeptAnswersAgree(run, start, provider.now, provider.misdirects, identity, blockNumber, blockHash, transactionHash,
                         answers.value, taken);
      }
      return Some(CanonicalMismatch), at, home;
    }
    AgreementIsSeen(run, start, provider.now, provider.misdirects, identity, blockNumber, blockHash, transactionHash, answers.value, taken);
    home := run[at.block].blocks[blockNumber];
    if transactionHash == "" { return None, at, home; }

    sent := provider.now;
    provider.Await();
    var confirmations, depthAt := provider.GetConfirmations(answers.value.receipt.value.blockNumber, sent);
    at := at.(depth := depthAt);
    if confirmations.Unavailable? { return Some(RpcUnavailable), at, home; }
    if minimumConfirmations.None? || confirmations.value < minimumConfirmations.value {
      return Some(InsufficientConfirmations(confirmations.value)), at, home;
    }
    return None, at, home;
  }

  /** On a settled chain a recheck without a failed read agrees with the chain in both directions, reason included. */
  lemma SettledRecheckIsTheVerdict(
    run: Run, from: nat, to: nat, identity: Identity, number: nat, blockHash: Option<string>, hash: string, minimum: Option<int>,
    misdirects: bool, failed: bool, fault: Option<Failure>, at: SnapshotMoments, home: Block)
    requires Settled(run, from, to, misdirects)
    requires Rechecked(run, from, to, identity, number, blockHash, hash, minimum, misdirects, failed, fault, at, home)
    ensures failed <==> fault == Some(RpcUnavailable)
    ensures !failed ==> (fault == Some(CanonicalMismatch) <==> !SnapshotHolds(run[from], identity, number, blockHash, hash))
    ensures !failed ==>
              (fault.None? <==>
                 && SnapshotHolds(run[from], identity, number, blockHash, hash)
                 && (hash != "" ==> minimum.Some? && Confirmations(run[from], number) >= minimum.value))
    ensures fault.Some? && fault.value.InsufficientConfirmations? ==>
              fault.value.confirmations == Confirmations(run[from], number)
  {
    var view := run[from];
    assert forall t :: from <= t <= to ==> run[t] == view;
    assert forall i :: 0 <= i < |view.blocks| ==> HashIsNormal(view.blocks[i].hash);
  }

  lemma CarrierIsHome(run: Run, number: nat, blockHash: string, homeAt: nat, home: Block, at: nat, carrier: Block)
    requires Lawful(run) && homeAt < |run| && at < |run| && Canonical(run[homeAt], home) && Canonical(run[at], carrier)
    requires Lower(home.hash) == Lower(blockHash) == Lower(carrier.hash)
    ensures carrier == home && home.hash == Lower(blockHash)
  {
    assert HashIsNormal(home.hash) && HashIsNormal(carrier.hash);
  }

  /** A block seen before its depth was counted is final exactly if it is seen again after the count. */
  lemma CountedBlockIsFinalIffReread(
    run: Run, number: nat, home: Block, hash: string, minimum: int, first: nat, counted: nat, reread: nat)
    requires Lawful(run) && FinalAt(run, minimum) && first <= counted <= reread < |run|
    requires Canonical(run[first], home) && home.number == number && HoldsTransaction(home, Lower(hash), 1)
    requires Confirmations(run[counted], number) >= minimum
    ensures (number < |run[reread].blocks| && run[reread].blocks[number].hash == home.hash) <==>
            (forall t :: counted <= t < |run| ==> SuccessAt(run[t], home, hash))
  {
    if number < |run[reread].blocks| && run[reread].blocks[number].hash == home.hash {
      SameHashPinsBlock(run, home, first, run[reread].blocks[number], reread);
      assert Canonical(run[counted], home);
    } else {
      assert !SuccessAt(run[reread], home, hash);
    }
  }

  /**
   * The recheck alone is not final, because the depth is counted last. It is exactly when the block
   * number still names the same hash at some moment from then on, which one more block read decides.
   */
  lemma RecheckIsFinalIffBlockIsRereadable(
    run: Run, from: nat, to: nat, identity: Identity, number: nat, blockHash: string, hash: string, minimum: int,
    at: SnapshotMoments, home: Block, reread: nat)
    requires Lawful(run) && FinalAt(run, minimum)
    requires SnapshotSeen(run, from, to, identity, number, blockHash, at, home)
    requires TransactionSeen(run, from, number, blockHash, hash, minimum, at)
    requires at.depth <= reread < |run|
    ensures (number < |run[reread].blocks| && run[reread].blocks[number].hash == Lower(blockHash)) <==>
            (forall t :: at.depth <= t < |run| ==> SuccessAt(run[t], home, hash))
  {
    CarrierIsHome(run, number, blockHash, at.block, home, at.receipt, run[at.receipt].blocks[number]);
    CountedBlockIsFinalIffReread(run, number, home, hash, minimum, at.block, at.depth, reread);
  }

  /** The answers with which a recheck passes: five taken up to `answered`, which agree, and a sufficient depth after them. */
  ghost predicate RecheckPasses(
    run: Run, from: nat, answered: nat, to: nat, misdirects: bool, identity: Identity, number: nat, blockHash: string,
    hash: string, minimum: int, answers: SnapshotAnswers, at: SnapshotMoments)
  {
    && AnswersTaken(run, from, answered, misdirects, identity, number, hash, answers, at)
    && AnswersAgree(answers, identity, number, Some(blockHash), hash)
    && answered <= at.depth <= to < |run|
    && (hash != "" ==> Confirmations(run[at.depth], number) >= minimum)
  }

  /** What a node that does not misdirect answers about a transaction in block `home` while `home` is canonical. */
  function AnswersAbout(view: View, identity: Identity, home: Block, hash: string): SnapshotAnswers
    requires identity.anchorBlock < |view.blocks|
  {
    var anchor := view.blocks[identity.anchorBlock];
    SnapshotAnswers(
      view.chainId, Some(Header(identity.anchorBlock, anchor.hash, anchor.timestamp)),
      Some(Header(home.number, home.hash, home.timestamp)),
      Some(Receipt(Lower(hash), 1, home.number, home.hash)),
      Some(TransactionRecord(Lower(hash), Some(home.number), Some(home.hash))))
  }

  lemma AnswersAreTaken(run: Run, identity: Identity, home: Block, hash: string)
    requires |run| > 0 && WellFormed(run[0]) && Canonical(run[0], home) && HoldsTransaction(home, Lower(hash), 1)
    requires identity.anchorBlock < |run[0].blocks|
    ensures AnswersTaken(run, 0, 0, false, identity, home.number, hash, AnswersAbout(run[0], identity, home, hash),
                         SnapshotMoments(0, 0, 0, 0, 0, 1))
  {
    LowerIdempotent(hash);
    OnlyHome(run[0], home, hash, 1);
    assert HoldsTransaction(run[0].blocks[home.number], Lower(Lower(hash)), 1);
  }

  /** A call on a faithful node passes if the chain holds the snapshot while the five reads are answered. */
  lemma RecheckOnHomePasses(run: Run, identity: Identity, home: Block, hash: string)
    requires |run| == 2 && WellFormed(run[0]) && Canonical(run[0], home) && HoldsTransaction(home, Lower(hash), 1)
    requires run[0].chainId == identity.chainId && Anchored(identity, run[0])
    requires Confirmations(run[1], home.number) >= 2
    ensures RecheckPasses(run, 0, 0, 1, false, identity, home.number, home.hash, hash, 2,
                          AnswersAbout(run[0], identity, home, hash), SnapshotMoments(0, 0, 0, 0, 0, 1))
  {
    var answers, at := AnswersAbout(run[0], identity, home, hash), SnapshotMoments(0, 0, 0, 0, 0, 1);
    assert HashIsNormal(home.hash);
    AnswersAreTaken(run, identity, home, hash);
    SettledAnswersAgree(run, 0, 0, false, identity, home.number, Some(home.hash), hash, answers, at);
  }

  /** What such a call has observed. */
  lemma RecheckOnHomeHasSeen(run: Run, identity: Identity, home: Block, hash: string)
    requires |run| == 2 && WellFormed(run[0]) && Canonical(run[0], home) && HoldsTransaction(home, Lower(hash), 1)
    requires run[0].chainId == identity.chainId && Anchored(identity, run[0])
    requires Confirmations(run[1], home.number) >= 2
    ensures var at := SnapshotMoments(0, 0, 0, 0, 0, 1);
            && SnapshotSeen(run, 0, 1, identity, home.number, home.hash, at, home)
            && TransactionSeen(run, 0, home.number, home.hash, hash, 2, at)
  {
    assert HashIsNormal(run[0].blocks[identity.anchorBlock].hash);
  }

  /** A reorg that replaces only the newest block drops no block with two confirmations. */
  lemma NewestReplacedIsFinal(run: Run, home: Block)
    requires |run| == 2 && Numbered(run[0]) && Canonical(run[0], home) && home.number == |run[0].blocks| - 1
    requires forall b :: Canonical(run[0], b) && b != home ==> Canonical(run[1], b)
    ensures FinalAt(run, 2)
  {
    forall i, j, b | 0 <= i <= j < |run| && Canonical(run[i], b) && Confirmations(run[i], b.number) >= 2
      ensures Canonical(run[j], b)
    {
      if i < j {
        assert i == 0 && j == 1 && b != home;
      }
    }
  }

  /**
   * Without that read the recheck is defeated by every reorg that replaces the newest block, seen
   * here as `home`, by a longer fork between the two halves of the recheck: a call on a faithful node
   * passes although its block is orphaned when it returns.
   */
  lemma RecheckAloneIsNotFinal(run: Run, blocks: set<Block>, identity: Identity, home: Block, hash: string)
    requires LawfulPair(run, blocks)
    requires Canonical(run[0], home) && home.number == |run[0].blocks| - 1 && HoldsTransaction(home, Lower(hash), 1)
    requires |run[1].blocks| == |run[0].blocks| + 1 && run[1].blocks[home.number] != home
    requires forall b :: Canonical(run[0], b) && b != home ==> Canonical(run[1], b)
    requires run[0].chainId == identity.chainId && Anchored(identity, run[0])
    ensures Lawful(run) && FinalAt(run, 2)
    ensures var at := SnapshotMoments(0, 0, 0, 0, 0, 1);
            && RecheckPasses(run, 0, 0, 1, false, identity, home.number, home.hash, hash, 2,
                             AnswersAbout(run[0], identity, home, hash), at)
            && SnapshotSeen(run, 0, 1, identity, home.number, home.hash, at, home)
            && TransactionSeen(run, 0, home.number, home.hash, hash, 2, at)
            && !Canonical(run[1], home)
  {
    LawfulPairIsLawful(run, blocks);
    NewestReplacedIsFinal(run, home);
    RecheckOnHomePasses(run, identity, home, hash);
    RecheckOnHomeHasSeen(run, identity, home, hash);
  }

  ghost predicate LawfulPair(run: Run, blocks: set<Block>) {
    && |run| == 2
    && WellFormed(run[0]) && WellFormed(run[1])
    && (forall i, b :: 0 <= i < |run| && Canonical(run[i], b) ==> b in blocks)
    && (forall b, c :: b in blocks && c in blocks && b.hash == c.hash ==> b == c)
  }

  /** With two views there is no third one in which an orphan could return. */
  lemma LawfulPairIsLawful(run: Run, blocks: set<Block>)
    requires LawfulPair(run, blocks)
    ensures Lawful(run)
  {
    PairIdentifiesHashes(run, blocks);
    PairReturnsNoOrphans(run);
    forall i | 0 <= i < |run|
      ensures WellFormed(run[i])
    {
    }
  }

  lemma PairIdentifiesHashes(run: Run, blocks: set<Block>)
    requires forall i, b :: 0 <= i < |run| && Canonical(run[i], b) ==> b in blocks
    requires forall b, c :: b in blocks && c in blocks && b.hash == c.hash ==> b == c
    ensures HashIdentifies(run)
  {
  }

  lemma PairReturnsNoOrphans(run: Run)
    requires |run| == 2
    ensures OrphansStayOrphans(run)
  {
  }
}
