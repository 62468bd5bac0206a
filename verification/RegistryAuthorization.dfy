/** One-block registry authorization (backend/src/lib/business-registry-authorization.ts). */
module RegistryAuthorization {
  import opened Wrappers
  import opened Text
  import opened Chain
  import opened NetworkIdentity
  import opened BlockSnapshot

  const REVERIFICATION_INTERVAL_SECONDS: nat := 365 * 24 * 60 * 60

  datatype KycStatus = Pending | Verified | Suspended | Revoked
  datatype Tier = Standard | Premium | Enterprise

  datatype Authorization = Authorization(
    wallet: string, status: KycStatus, tier: Tier, active: bool, isAdmin: bool,
    registeredAt: nat, lastVerified: nat, expiresAt: Option<nat>, blockNumber: nat, blockHash: string)

  /** Where a failed authorization stopped. All of these surface as one error. */
  datatype Refusal =
    | InvalidAddress
    | Unreadable(fault: Fault)
    | CodeMissing
    | InvalidResponse
    | InconsistentActive

  function StatusOf(raw: nat): Option<KycStatus> {
    match raw
    case 0 => Some(Pending)
    case 1 => Some(Verified)
    case 2 => Some(Suspended)
    case 3 => Some(Revoked)
    case _ => None
  }

  function TierOf(raw: nat): Option<Tier> {
    match raw
    case 0 => Some(Standard)
    case 1 => Some(Premium)
    case 2 => Some(Enterprise)
    case _ => None
  }

  /** The checks and computed fields, once all three contract calls have answered. */
  function Assess(
    address: string, checksum: string -> Option<string>, header: Header, details: RegistryDetails, contractActive: bool, isAdmin: bool)
    : Result<Authorization, Refusal>
  {
    var status, tier := StatusOf(details.kycStatus), TierOf(details.tier);
    if checksum(details.wallet) != Some(address) || details.registeredAt == 0 || status.None? || tier.None? then
      Err(InvalidResponse)
    else
      var expiresAt :=
        if status.value.Verified? then Some(details.lastVerified + REVERIFICATION_INTERVAL_SECONDS) else None;
      var computedActive :=
        status.value.Verified? && details.lastVerified > 0 && expiresAt.Some? && expiresAt.value > header.timestamp;
      if contractActive != computedActive then Err(InconsistentActive)
      else
        Ok(Authorization(address, status.value, tier.value, computedActive, isAdmin, details.registeredAt,
                         details.lastVerified, expiresAt, header.number, Lower(header.hash)))
  }

  /**
   * Every field of `auth` is what the registry says at block `b`, in the contract's own numbers: status and tier are 0, 1, 2 and on
   * in the order the contract lists them, and a year is 31,536,000 seconds. `registry` is the contract address.
   */
  ghost predicate DescribesBlock(auth: Authorization, b: Block, registry: string, checksum: string -> Option<string>) {
    && auth.blockNumber == b.number && auth.blockHash == Lower(b.hash)
    && registry in b.state.code && IsByteCode(b.state.code[registry])
    && auth.wallet in b.state.details && auth.wallet in b.state.active && auth.wallet in b.state.admin
    && var d := b.state.details[auth.wallet];
       && checksum(d.wallet) == Some(auth.wallet)
       && (auth.status.Pending? <==> d.kycStatus == 0) && (auth.status.Verified? <==> d.kycStatus == 1)
       && (auth.status.Suspended? <==> d.kycStatus == 2) && (auth.status.Revoked? <==> d.kycStatus == 3)
       && (auth.tier.Standard? <==> d.tier == 0) && (auth.tier.Premium? <==> d.tier == 1) && (auth.tier.Enterprise? <==> d.tier == 2)
       && auth.registeredAt == d.registeredAt > 0 && auth.lastVerified == d.lastVerified
       && auth.isAdmin == b.state.admin[auth.wallet]
       && auth.active == b.state.active[auth.wallet]
       && auth.expiresAt == (if d.kycStatus == 1 then Some(d.lastVerified + 31536000) else None)
       && (auth.active <==> d.kycStatus == 1 && d.lastVerified > 0 && d.lastVerified + 31536000 > b.timestamp)
  }

  /** The block values under which an authorization is returned, active or not. */
  ghost predicate Authorizable(b: Block, registry: string, checksum: string -> Option<string>, address: string) {
    && registry in b.state.code && IsByteCode(b.state.code[registry])
    && address in b.state.details && address in b.state.active && address in b.state.admin
    && var d := b.state.details[address];
       && checksum(d.wallet) == Some(address) && d.registeredAt > 0 && d.kycStatus <= 3 && d.tier <= 2
       && (b.state.active[address] <==> d.kycStatus == 1 && d.lastVerified > 0 && d.lastVerified + 31536000 > b.timestamp)
  }

  /** The moments of the single reads between entry and exit. */
  datatype Reads = Reads(
    networkIn: nat, anchorIn: nat, entry: nat, code: nat, details: nat, active: nat, admin: nat,
    networkOut: nat, anchorOut: nat, exit: nat)

  /** What the state reads answered, each at its own moment. A read of a block that is not there fails, as does a call that reverts. */
  ghost function AnswerAt(
    run: Run, header: Header, registry: string, checksum: string -> Option<string>, address: string,
    codeAt: nat, detailsAt: nat, activeAt: nat, adminAt: nat): Result<Authorization, Refusal>
  {
    if !StateRead(run, header, codeAt) then Err(Unreadable(RpcFailure))
    else if !IsByteCode(CodeAt(StateAt(run, header, codeAt), registry)) then Err(CodeMissing)
    else if !StateRead(run, header, detailsAt) || !StateRead(run, header, activeAt) || !StateRead(run, header, adminAt) then
      Err(Unreadable(RpcFailure))
    else if || address !in StateAt(run, header, detailsAt).details
            || address !in StateAt(run, header, activeAt).active
            || address !in StateAt(run, header, adminAt).admin then
      Err(Unreadable(RpcFailure))
    else
      Assess(address, checksum, header, StateAt(run, header, detailsAt).details[address],
             StateAt(run, header, activeAt).active[address], StateAt(run, header, adminAt).admin[address])
  }

  /** The reads follow each other as dispatched: code, then the three calls together, all after the entry. */
  ghost predicate InOrder(at: Reads, to: nat) {
    && at.entry <= at.code <= at.details <= to && at.code <= at.active <= to && at.code <= at.admin <= to
  }

  /** Raw evidence of a completed authorization, before any assumption about the run. */
  ghost predicate Collected(
    run: Run, registry: string, address: string, checksum: string -> Option<string>, auth: Authorization, header: Header,
    at: Reads)
  {
    && InOrder(at, at.exit)
    && Framed(run, header, at.entry, at.exit)
    && AnswerAt(run, header, registry, checksum, address, at.code, at.details, at.active, at.admin) == Ok(auth)
  }

  /** The same decision taken in one piece at the head of a view. */
  ghost function ReadAt(view: View, identity: Identity, registry: string, checksum: string -> Option<string>, rawAddress: string)
    : Result<Authorization, Refusal>
  {
    if checksum(rawAddress).None? then Err(InvalidAddress)
    else if !Admissible(view, identity) || view.blocks[|view.blocks| - 1].timestamp > MAX_SAFE_INTEGER then Err(Unreadable(ChainMismatch))
    else Evaluate(view.blocks[|view.blocks| - 1], registry, checksum, checksum(rawAddress).value)
  }

  ghost function Evaluate(b: Block, registry: string, checksum: string -> Option<string>, address: string)
    : Result<Authorization, Refusal>
  {
    if !IsByteCode(CodeAt(b.state, registry)) then Err(CodeMissing)
    else if address !in b.state.details || address !in b.state.active || address !in b.state.admin then Err(Unreadable(RpcFailure))
    else
      Assess(address, checksum, Header(b.number, b.hash, b.timestamp), b.state.details[address], b.state.active[address],
             b.state.admin[address])
  }

  /** Code, then the three contract calls in flight together, all by block number. */
  method ReadRegistry(
    provider: Node, header: Header, registry: string, checksum: string -> Option<string>, address: string)
    returns (result: Result<Authorization, Refusal>, ghost codeAt: nat, ghost detailsAt: nat, ghost activeAt: nat, ghost adminAt: nat)
    requires provider.Valid()
    modifies provider
    ensures provider.Valid() && old(provider.failures) <= provider.failures
    ensures old(provider.now) <= codeAt <= detailsAt <= provider.now
    ensures codeAt <= activeAt <= provider.now && codeAt <= adminAt <= provider.now
    ensures old(provider.failures) < provider.failures ==> result == Err(Unreadable(RpcFailure))
    ensures old(provider.failures) == provider.failures ==>
              result == AnswerAt(provider.run, header, registry, checksum, address, codeAt, detailsAt, activeAt, adminAt)
  {
    var sent := provider.now;
    provider.Await();
    var code, a := provider.GetState(header.number, sent);
    codeAt, detailsAt, activeAt, adminAt := a, a, a, a;
    if code.Unavailable? { return Err(Unreadable(RpcFailure)), codeAt, detailsAt, activeAt, adminAt; }
    if !IsByteCode(CodeAt(code.value, registry)) { return Err(CodeMissing), codeAt, detailsAt, activeAt, adminAt; }

    sent := provider.now;
    provider.Await();
    var details, b := provider.GetState(header.number, sent);
    var active, c := provider.GetState(header.number, sent);
    var admin, d := provider.GetState(header.number, sent);
    detailsAt, activeAt, adminAt := b, c, d;
    if || details.Unavailable? || active.Unavailable? || admin.Unavailable?
       || address !in details.value.details || address !in active.value.active || address !in admin.value.admin
    {
      return Err(Unreadable(RpcFailure)), codeAt, detailsAt, activeAt, adminAt;
    }
    result :=
      Assess(address, checksum, header, details.value.details[address], active.value.active[address], admin.value.admin[address]);
  }

  /**
   * What the part after the entry leaves behind when no read failed: what the state reads answered, unless the head did not stay in
   * place. An authorization comes with the evidence of the whole frame.
   */
  ghost predicate HeadAccounted(
    run: Run, to: nat, misdirects: bool, identity: Identity, registry: string, checksum: string -> Option<string>, address: string,
    result: Result<Authorization, Refusal>, header: Header, at: Reads)
  {
    && InOrder(at, to)
    && var answer := AnswerAt(run, header, registry, checksum, address, at.code, at.details, at.active, at.admin);
       if result == answer then
         answer.Ok? ==>
           && at.exit <= to && Collected(run, registry, address, checksum, answer.value, header, at)
           && IdentitySeen(identity, run, at.details, at.networkOut, at.anchorOut, to)
       else
         answer.Ok? && result == Err(Unreadable(NotCanonical)) && !HeadKept(run, at.entry, to, misdirects, identity, header)
  }

  /** What a call leaves behind, for an address that is one: its evidence or its reason. `failed` is whether a read failed. */
  ghost predicate Accounted(
    run: Run, from: nat, to: nat, misdirects: bool, failed: bool, identity: Identity, registry: string,
    checksum: string -> Option<string>, address: string, result: Result<Authorization, Refusal>, header: Header, at: Reads)
  {
    if failed then result == Err(Unreadable(RpcFailure))
    else if !Entered(run, from, to, misdirects, identity, header, at.networkIn, at.anchorIn, at.entry) then
      result == Err(Unreadable(ChainMismatch)) && !Steady(run, from, to, misdirects, identity)
    else if header.timestamp > MAX_SAFE_INTEGER then result == Err(Unreadable(ChainMismatch))
    else HeadAccounted(run, to, misdirects, identity, registry, checksum, address, result, header, at)
  }

  /** The state reads at the entry block, and the exit. */
  method AuthorizeAt(
    provider: Node, identity: Identity, header: Header, registry: string, checksum: string -> Option<string>, address: string,
    ghost entered: Reads)
    returns (result: Result<Authorization, Refusal>, ghost at: Reads)
    requires provider.Valid() && entered.entry <= provider.now && HeaderOf(provider.run[entered.entry], header)
    modifies provider
    ensures provider.Valid() && old(provider.now) <= provider.now && old(provider.failures) <= provider.failures
    ensures at.networkIn == entered.networkIn && at.anchorIn == entered.anchorIn && at.entry == entered.entry <= old(provider.now)
    ensures old(provider.now) <= at.code
    ensures old(provider.failures) < provider.failures ==> result == Err(Unreadable(RpcFailure))
    ensures old(provider.failures) == provider.failures ==>
              HeadAccounted(provider.run, provider.now, provider.misdirects, identity, registry, checksum, address, result, header, at)
  {
    var assessed, codeAt, detailsAt, activeAt, adminAt := ReadRegistry(provider, header, registry, checksum, address);
    at := entered.(code := codeAt, details := detailsAt, active := activeAt, admin := adminAt);
    if assessed.Err? { return assessed, at; }
    var fault, n, a, exitAt := Close(provider, identity, header);
    at := at.(networkOut := n, anchorOut := a, exit := exitAt);
    if fault.Some? { return Err(Unreadable(fault.value)), at; }
    return assessed, at;
  }

  /** `getCurrentBusinessRegistryAuthorization`. */
  method GetCurrentAuthorization(
    provider: Node, identity: Identity, registry: string, checksum: string -> Option<string>, rawAddress: string)
    returns (result: Result<Authorization, Refusal>, ghost header: Header, ghost at: Reads)
    requires provider.Valid()
    modifies provider
    ensures provider.Valid() && old(provider.now) <= provider.now && old(provider.failures) <= provider.failures
    ensures checksum(rawAddress).None? ==> result == Err(InvalidAddress) && old(provider.failures) == provider.failures
    ensures checksum(rawAddress).Some? ==>
              Accounted(provider.run, old(provider.now), provider.now, provider.misdirects, old(provider.failures) < provider.failures,
                        identity, registry, checksum, checksum(rawAddress).value, result, header, at)
    ensures result.Ok? ==> IdentitySeen(identity, provider.run, old(provider.now), at.networkIn, at.anchorIn, at.code)
  {
    header := Header(0, "", 0);
    at := Reads(0, 0, 0, 0, 0, 0, 0, 0, 0, 0);
    if checksum(rawAddress).None? { return Err(InvalidAddress), header, at; }

    var entry, n, a, entryAt := Open(provider, identity);
    at := at.(networkIn := n, anchorIn := a, entry := entryAt);
    if entry.Err? { return Err(Unreadable(entry.error)), header, at; }
    header := entry.value;
    if entry.value.timestamp > MAX_SAFE_INTEGER { return Err(Unreadable(ChainMismatch)), header, at; }
    result, at := AuthorizeAt(provider, identity, entry.value, registry, checksum, checksum(rawAddress).value, at);
  }

  // ---------------------------------------------------------------- what an authorization guarantees

  /**
   * Snapshot consistency: despite reads by number during reorgs, every returned field is the
   * registry state of the one block whose hash is returned, canonical throughout the read.
   */
  lemma AuthorizationIsOneBlock(
    run: Run, registry: string, address: string, checksum: string -> Option<string>, auth: Authorization, header: Header,
    at: Reads) returns (b: Block)
    requires Lawful(run)
    requires Collected(run, registry, address, checksum, auth, header, at)
    ensures forall t :: at.entry <= t <= at.exit ==> Canonical(run[t], b)
    ensures auth.wallet == address && DescribesBlock(auth, b, registry, checksum)
    ensures Authorizable(b, registry, checksum, address)
  {
    b := FramePinsBlock(run, header, at.entry, at.exit);
    AnswerOfBlock(run, header, registry, checksum, address, at, at.exit, b);
    EvaluatesExactly(b, registry, checksum, address);
  }

  /** An authorization is computed from a block exactly when its values allow one, and then it describes the block. */
  lemma EvaluatesExactly(b: Block, registry: string, checksum: string -> Option<string>, address: string)
    ensures Evaluate(b, registry, checksum, address).Ok? <==> Authorizable(b, registry, checksum, address)
    ensures var result := Evaluate(b, registry, checksum, address);
            result.Ok? ==> result.value.wallet == address && DescribesBlock(result.value, b, registry, checksum)
  {
    assert REVERIFICATION_INTERVAL_SECONDS == 31536000;
  }

  /** The reads of one block are answered as `Evaluate` computes. */
  lemma AnswerOfBlock(
    run: Run, header: Header, registry: string, checksum: string -> Option<string>, address: string, at: Reads, to: nat, b: Block)
    requires InOrder(at, to) && b.number == header.number && b.timestamp == header.timestamp && Lower(b.hash) == Lower(header.hash)
    requires to < |run|
    requires forall t :: at.entry <= t <= to ==> header.number < |run[t].blocks| && run[t].blocks[header.number] == b
    ensures AnswerAt(run, header, registry, checksum, address, at.code, at.details, at.active, at.admin) ==
            Evaluate(b, registry, checksum, address)
  {
    assert StateAt(run, header, at.code) == StateAt(run, header, at.details) == b.state;
    assert StateAt(run, header, at.active) == StateAt(run, header, at.admin) == b.state;
  }

  /**
   * The chain need not stand still: while the node's head stays acceptable and the block read first stays canonical, a call
   * without a failed read decides by that block alone, whatever is mined or reorganised above it.
   */
  lemma KeptHeadIsTheVerdict(
    run: Run, from: nat, to: nat, misdirects: bool, identity: Identity, registry: string, checksum: string -> Option<string>,
    address: string, result: Result<Authorization, Refusal>, header: Header, at: Reads, b: Block)
    requires Accounted(run, from, to, misdirects, false, identity, registry, checksum, address, result, header, at)
    requires Steady(run, from, to, misdirects, identity)
    requires b.number == header.number && Kept(run, at.entry, to, misdirects, b)
    ensures from <= at.entry && header.number == |run[at.entry].blocks| - 1
    ensures result == if b.timestamp > MAX_SAFE_INTEGER then Err(Unreadable(ChainMismatch))
                      else Evaluate(b, registry, checksum, address)
  {
    assert Canonical(run[at.entry], b) && header.timestamp == b.timestamp;
    if header.timestamp <= MAX_SAFE_INTEGER {
      assert forall t :: at.entry <= t <= to ==> Canonical(run[t], b);
      AnswerOfBlock(run, header, registry, checksum, address, at, to, b);
    }
  }

  /** On a settled chain a call without a failed read returns what its head says, refusals included. */
  lemma SettledAuthorizationIsTheVerdict(
    run: Run, from: nat, to: nat, misdirects: bool, identity: Identity, registry: string, checksum: string -> Option<string>,
    rawAddress: string, result: Result<Authorization, Refusal>, header: Header, at: Reads)
    requires Settled(run, from, to, misdirects) && checksum(rawAddress).Some?
    requires Accounted(run, from, to, misdirects, false, identity, registry, checksum, checksum(rawAddress).value, result, header, at)
    ensures result == ReadAt(run[from], identity, registry, checksum, rawAddress)
  {
    SettledIsSteady(run, from, to, misdirects, identity);
    if Entered(run, from, to, misdirects, identity, header, at.networkIn, at.anchorIn, at.entry) {
      var b := SettledHead(run, from, to, misdirects, identity, header, at.networkIn, at.anchorIn, at.entry);
      KeptHeadIsTheVerdict(run, from, to, misdirects, identity, registry, checksum, checksum(rawAddress).value, result, header, at, b);
    }
  }

  /**
   * The assumption that orphans stay orphans is needed: if the view goes A, B, A, a role read that
   * lands in B is returned under A's hash, whatever A itself says.
   */
  lemma ReturningOrphanMixesBlocks(
    run: Run, registry: string, address: string, checksum: string -> Option<string>, auth: Authorization, header: Header)
    requires |run| == 3 && run[0] == run[2] && Numbered(run[0]) && HeaderOf(run[0], header) && StateRead(run, header, 1)
    requires var a := run[0].blocks[header.number];
             header == Header(a.number, a.hash, a.timestamp) && Evaluate(a, registry, checksum, address) == Ok(auth)
    requires address in StateAt(run, header, 1).admin && StateAt(run, header, 1).admin[address] != auth.isAdmin
    ensures var mixed := auth.(isAdmin := !auth.isAdmin);
            && Collected(run, registry, address, checksum, mixed, header, Reads(0, 0, 0, 0, 0, 0, 1, 2, 2, 2))
            && !DescribesBlock(mixed, run[0].blocks[header.number], registry, checksum)
  {
  }
}
