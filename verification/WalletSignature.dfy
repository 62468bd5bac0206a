/** EIP-191 signatures of plain and contract wallets (backend/src/lib/wallet-signature-authorization.ts). */
module WalletSignature {
  import opened Wrappers
  import opened Text
  import opened Chain
  import opened NetworkIdentity
  import opened BlockSnapshot

  const EIP1271_MAGIC_VALUE: string := "0x1626ba7e"

  /** Where a failed check stopped; the original throws one error for all of them. */
  datatype Refusal = InvalidAddress | Unreadable(fault: Fault) | AccountUnjudgeable

  /** Cryptography and checksumming stay uninterpreted. */
  datatype Wallets = Wallets(
    checksum: string -> Option<string>,
    recover: (string, string) -> Option<string>)

  /** The account has no code. */
  ghost predicate IsPlain(state: WorldState, address: string) {
    address !in state.code || state.code[address] == "0x"
  }

  /**
   * The wallet has signed the message, by this state. A plain wallet, with no code: recovery gives a signer whose checksummed address is the
   * wallet. A contract wallet: it answered the four bytes 0x1626ba7e, in any case.
   */
  ghost predicate Signed(state: WorldState, wallets: Wallets, address: string, message: string, signature: string) {
    || (IsPlain(state, address) &&
        exists signer :: wallets.recover(message, signature) == Some(signer) && wallets.checksum(signer) == Some(address))
    || (address in state.code && IsByteCode(state.code[address]) && (address, message, signature) in state.approvals &&
        Lower(state.approvals[(address, message, signature)]) == "0x1626ba7e")
  }

  /** The account is a plain wallet, or a contract that answers. */
  ghost predicate Judgeable(state: WorldState, address: string, message: string, signature: string) {
    || IsPlain(state, address)
    || (address in state.code && IsByteCode(state.code[address]) && (address, message, signature) in state.approvals)
  }

  /**
   * What the state in which the code is read and the one in which the contract is called say about a signature. A read of a block
   * that is not there fails; recovery that throws counts as invalid.
   */
  ghost function Verdict(
    account: Option<WorldState>, call: Option<WorldState>, wallets: Wallets, address: string, message: string, signature: string)
    : Result<bool, Refusal>
  {
    if account.None? then Err(Unreadable(RpcFailure))
    else if CodeAt(account.value, address) == "0x" then
      match wallets.recover(message, signature)
      case None => Ok(false)
      case Some(signer) => Ok(wallets.checksum(signer) == Some(address))
    else if !IsByteCode(CodeAt(account.value, address)) then Err(AccountUnjudgeable)
    else if call.None? then Err(Unreadable(RpcFailure))
    else if (address, message, signature) !in call.value.approvals then Err(AccountUnjudgeable)
    else Ok(Lower(call.value.approvals[(address, message, signature)]) == EIP1271_MAGIC_VALUE)
  }

  /** Within one state the verdict is whether the wallet has signed, for exactly the accounts that can be judged. */
  lemma VerdictIsSigned(state: WorldState, wallets: Wallets, address: string, message: string, signature: string)
    ensures var verdict := Verdict(Some(state), Some(state), wallets, address, message, signature);
            && (verdict.Ok? <==> Judgeable(state, address, message, signature))
            && (verdict.Err? ==> verdict == Err(AccountUnjudgeable))
            && (verdict.Ok? ==> (verdict.value <==> Signed(state, wallets, address, message, signature)))
  {
  }

  /** The whole check taken in one piece at the head of a view. */
  ghost function CheckAt(view: View, identity: Identity, wallets: Wallets, rawAddress: string, message: string, signature: string)
    : Result<bool, Refusal>
  {
    if wallets.checksum(rawAddress).None? then Err(InvalidAddress)
    else if !Admissible(view, identity) then Err(Unreadable(ChainMismatch))
    else
      var state := Some(view.blocks[|view.blocks| - 1].state);
      Verdict(state, state, wallets, wallets.checksum(rawAddress).value, message, signature)
  }

  /** The moments of the single reads. */
  datatype Steps = Steps(
    networkIn: nat, anchorIn: nat, entry: nat, code: nat, call: nat, networkOut: nat, anchorOut: nat, exit: nat)

  /** The state of the block at the header's number, if there is one at that moment. */
  ghost function StateIf(run: Run, header: Header, at: nat): Option<WorldState> {
    if StateRead(run, header, at) then Some(StateAt(run, header, at)) else None
  }

  /** Code read at one moment, the ERC-1271 answer (for contract wallets) at a later one. */
  ghost function AnswerAt(
    run: Run, wallets: Wallets, address: string, message: string, signature: string, header: Header, codeAt: nat, callAt: nat)
    : Result<bool, Refusal>
  {
    Verdict(StateIf(run, header, codeAt), StateIf(run, header, callAt), wallets, address, message, signature)
  }

  ghost predicate Judged(
    run: Run, wallets: Wallets, address: string, message: string, signature: string, valid: bool, header: Header, at: Steps)
  {
    && at.entry <= at.code <= at.call <= at.exit
    && Framed(run, header, at.entry, at.exit)
    && AnswerAt(run, wallets, address, message, signature, header, at.code, at.call) == Ok(valid)
  }

  /** The part between entry and exit: the account's code and, for a contract wallet, its answer. */
  method Judge(provider: Node, header: Header, wallets: Wallets, address: string, message: string, signature: string)
    returns (valid: Result<bool, Refusal>, ghost codeAt: nat, ghost callAt: nat)
    requires provider.Valid()
    modifies provider
    ensures provider.Valid() && old(provider.failures) <= provider.failures
    ensures old(provider.now) <= codeAt <= callAt <= provider.now
    ensures old(provider.failures) < provider.failures ==> valid == Err(Unreadable(RpcFailure))
    ensures old(provider.failures) == provider.failures ==>
              valid == AnswerAt(provider.run, wallets, address, message, signature, header, codeAt, callAt)
  {
    var sent := provider.now;
    provider.Await();
    var read, readAt := provider.GetState(header.number, sent);
    codeAt, callAt := readAt, readAt;
    if read.Unavailable? { return Err(Unreadable(RpcFailure)), codeAt, callAt; }
    var code := CodeAt(read.value, address);
    if code == "0x" {
      var signer := wallets.recover(message, signature);
      return Ok(signer.Some? && wallets.checksum(signer.value) == Some(address)), codeAt, callAt;
    }
    if !IsByteCode(code) { return Err(AccountUnjudgeable), codeAt, callAt; }

    sent := provider.now;
    provider.Await();
    var call, answeredAt := provider.GetState(header.number, sent);
    callAt := answeredAt;
    if call.Unavailable? { return Err(Unreadable(RpcFailure)), codeAt, callAt; }
    if (address, message, signature) !in call.value.approvals { return Err(AccountUnjudgeable), codeAt, callAt; }
    valid := Ok(Lower(call.value.approvals[(address, message, signature)]) == EIP1271_MAGIC_VALUE);
  }

  /**
   * What the part after the entry leaves behind when no read failed: what the state reads answered, unless the head did not stay in
   * place. A verdict comes with the evidence of the whole frame.
   */
  ghost predicate HeadAccounted(
    run: Run, to: nat, misdirects: bool, identity: Identity, wallets: Wallets, address: string, message: string, signature: string,
    result: Result<bool, Refusal>, header: Header, at: Steps)
  {
    && at.entry <= at.code <= at.call <= to
    && var answer := AnswerAt(run, wallets, address, message, signature, header, at.code, at.call);
       if result == answer then
         answer.Ok? ==>
           && at.exit <= to && Judged(run, wallets, address, message, signature, answer.value, header, at)
           && IdentitySeen(identity, run, at.call, at.networkOut, at.anchorOut, to)
       else
         answer.Ok? && result == Err(Unreadable(NotCanonical)) && !HeadKept(run, at.entry, to, misdirects, identity, header)
  }

  /** What a call leaves behind, for an address that is one: its evidence or its reason. `failed` is whether a read failed. */
  ghost predicate Accounted(
    run: Run, from: nat, to: nat, misdirects: bool, failed: bool, identity: Identity, wallets: Wallets, address: string,
    message: string, signature: string, result: Result<bool, Refusal>, header: Header, at: Steps)
  {
    if failed then result == Err(Unreadable(RpcFailure))
    else if !Entered(run, from, to, misdirects, identity, header, at.networkIn, at.anchorIn, at.entry) then
      result == Err(Unreadable(ChainMismatch)) && !Steady(run, from, to, misdirects, identity)
    else HeadAccounted(run, to, misdirects, identity, wallets, address, message, signature, result, header, at)
  }

  /** The state reads at the entry block, and the exit. */
  method JudgeAt(
    provider: Node, identity: Identity, header: Header, wallets: Wallets, address: string, message: string, signature: string,
    ghost entered: Steps)
    returns (result: Result<bool, Refusal>, ghost at: Steps)
    requires provider.Valid() && entered.entry <= provider.now && HeaderOf(provider.run[entered.entry], header)
    modifies provider
    ensures provider.Valid() && old(provider.now) <= provider.now && old(provider.failures) <= provider.failures
    ensures at.networkIn == entered.networkIn && at.anchorIn == entered.anchorIn && at.entry == entered.entry <= old(provider.now)
    ensures old(provider.now) <= at.code
    ensures old(provider.failures) < provider.failures ==> result == Err(Unreadable(RpcFailure))
    ensures old(provider.failures) == provider.failures ==>
              HeadAccounted(provider.run, provider.now, provider.misdirects, identity, wallets, address, message, signature, result,
                            header, at)
  {
    var valid, codeAt, callAt := Judge(provider, header, wallets, address, message, signature);
    at := entered.(code := codeAt, call := callAt);
    if valid.Err? { return valid, at; }
    var fault, n, a, exitAt := Close(provider, identity, header);
    at := at.(networkOut := n, anchorOut := a, exit := exitAt);
    if fault.Some? { return Err(Unreadable(fault.value)), at; }
    return valid, at;
  }

  /** `isCurrentWalletMessageSignatureValid`; every thrown error is `Err`. */
  method IsSignatureValid(
    provider: Node, identity: Identity, wallets: Wallets, rawAddress: string, message: string, signature: string)
    returns (result: Result<bool, Refusal>, ghost header: Header, ghost at: Steps)
    requires provider.Valid()
    modifies provider
    ensures provider.Valid() && old(provider.now) <= provider.now && old(provider.failures) <= provider.failures
    ensures wallets.checksum(rawAddress).None? ==> result == Err(InvalidAddress) && old(provider.failures) == provider.failures
    ensures wallets.checksum(rawAddress).Some? ==>
              Accounted(provider.run, old(provider.now), provider.now, provider.misdirects, old(provider.failures) < provider.failures,
                        identity, wallets, wallets.checksum(rawAddress).value, message, signature, result, header, at)
    ensures result.Ok? ==> IdentitySeen(identity, provider.run, old(provider.now), at.networkIn, at.anchorIn, at.code)
  {
    header := Header(0, "", 0);
    at := Steps(0, 0, 0, 0, 0, 0, 0, 0);
    if wallets.checksum(rawAddress).None? { return Err(InvalidAddress), header, at; }
    var opening, n, a, entryAt := Open(provider, identity);
    at := at.(networkIn := n, anchorIn := a, entry := entryAt);
    if opening.Err? { return Err(Unreadable(opening.error)), header, at; }
    header := opening.value;
    result, at := JudgeAt(provider, identity, opening.value, wallets, wallets.checksum(rawAddress).value, message, signature, at);
  }

  /** The reads of one block are answered by its state. */
  lemma AnswerOfBlock(
    run: Run, wallets: Wallets, address: string, message: string, signature: string, header: Header, at: Steps, to: nat, b: Block)
    requires at.entry <= at.code <= at.call <= to < |run|
    requires forall t :: at.entry <= t <= to ==> header.number < |run[t].blocks| && run[t].blocks[header.number] == b
    ensures AnswerAt(run, wallets, address, message, signature, header, at.code, at.call) ==
            Verdict(Some(b.state), Some(b.state), wallets, address, message, signature)
  {
  }

  /** Account type and ERC-1271 answer come from one block, canonical throughout the check; the verdict is whether the wallet has signed. */
  lemma VerdictIsOneBlock(
    run: Run, wallets: Wallets, address: string, message: string, signature: string, valid: bool, header: Header,
    at: Steps) returns (b: Block)
    requires Lawful(run)
    requires Judged(run, wallets, address, message, signature, valid, header, at)
    ensures forall t :: at.entry <= t <= at.exit ==> Canonical(run[t], b)
    ensures b.hash == Lower(header.hash)
    ensures Judgeable(b.state, address, message, signature)
    ensures valid <==> Signed(b.state, wallets, address, message, signature)
  {
    b := FramePinsBlock(run, header, at.entry, at.exit);
    AnswerOfBlock(run, wallets, address, message, signature, header, at, at.exit, b);
    VerdictIsSigned(b.state, wallets, address, message, signature);
  }

  /** While the head read first stays in place, the verdict is the one of that block. */
  lemma KeptHeadAnswers(
    run: Run, from: nat, to: nat, misdirects: bool, identity: Identity, wallets: Wallets, address: string, message: string,
    signature: string, result: Result<bool, Refusal>, header: Header, at: Steps, b: Block)
    requires Accounted(run, from, to, misdirects, false, identity, wallets, address, message, signature, result, header, at)
    requires Steady(run, from, to, misdirects, identity)
    requires b.number == header.number && Kept(run, at.entry, to, misdirects, b)
    ensures from <= at.entry && header.number == |run[at.entry].blocks| - 1
    ensures result == Verdict(Some(b.state), Some(b.state), wallets, address, message, signature)
  {
    assert Canonical(run[at.entry], b);
    assert forall t :: at.entry <= t <= to ==> Canonical(run[t], b);
    AnswerOfBlock(run, wallets, address, message, signature, header, at, to, b);
  }

  /**
   * The chain need not stand still: while the node's head stays acceptable and the block read first stays canonical, a call
   * without a failed read decides by that block alone, whatever is mined or reorganised above it.
   */
  lemma KeptHeadIsTheVerdict(
    run: Run, from: nat, to: nat, misdirects: bool, identity: Identity, wallets: Wallets, address: string, message: string,
    signature: string, result: Result<bool, Refusal>, header: Header, at: Steps, b: Block)
    requires Accounted(run, from, to, misdirects, false, identity, wallets, address, message, signature, result, header, at)
    requires Steady(run, from, to, misdirects, identity)
    requires b.number == header.number && Kept(run, at.entry, to, misdirects, b)
    ensures from <= at.entry && header.number == |run[at.entry].blocks| - 1
    ensures result.Ok? <==> Judgeable(b.state, address, message, signature)
    ensures result.Ok? ==> (result.value <==> Signed(b.state, wallets, address, message, signature))
  {
    KeptHeadAnswers(run, from, to, misdirects, identity, wallets, address, message, signature, result, header, at, b);
    VerdictIsSigned(b.state, wallets, address, message, signature);
  }

  /** On a settled chain a call without a failed read returns what its head says, refusals included. */
  lemma SettledSignatureIsTheVerdict(
    run: Run, from: nat, to: nat, misdirects: bool, identity: Identity, wallets: Wallets, rawAddress: string, message: string,
    signature: string, result: Result<bool, Refusal>, header: Header, at: Steps)
    requires Settled(run, from, to, misdirects) && wallets.checksum(rawAddress).Some?
    requires Accounted(run, from, to, misdirects, false, identity, wallets, wallets.checksum(rawAddress).value, message, signature,
                       result, header, at)
    ensures result == CheckAt(run[from], identity, wallets, rawAddress, message, signature)
  {
    SettledIsSteady(run, from, to, misdirects, identity);
    if Entered(run, from, to, misdirects, identity, header, at.networkIn, at.anchorIn, at.entry) {
      var b := SettledHead(run, from, to, misdirects, identity, header, at.networkIn, at.anchorIn, at.entry);
      KeptHeadAnswers(run, from, to, misdirects, identity, wallets, wallets.checksum(rawAddress).value, message, signature,
                      result, header, at, b);
    }
  }
}
