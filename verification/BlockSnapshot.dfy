/**
 * The entry and exit reads shared by the registry and wallet-signature checks: a latest block on the
 * anchored chain is fixed first, and its number must still name the same hash at the end.
 */
module BlockSnapshot {
  import opened Wrappers
  import opened Text
  import opened Chain
  import opened NetworkIdentity

  const MAX_SAFE_INTEGER: nat := 9007199254740991

  datatype Fault = RpcFailure | ChainMismatch | NotCanonical

  /** A head the entry reads accept on a chain that stands still. */
  ghost predicate Admissible(view: View, identity: Identity) {
    && |view.blocks| > 0 && |view.blocks| - 1 <= MAX_SAFE_INTEGER
    && view.chainId == identity.chainId
    && Anchored(identity, view)
  }

  /** `/^0x(?:[0-9a-fA-F]{2})+$/`. */
  predicate IsByteCode(code: string) {
    |code| > 2 && |code| % 2 == 0 && code[..2] == "0x" && AllHex(code[2..])
  }

  /** Any number of two-digit groups, read from the left. */
  ghost predicate HexPairs(s: string) {
    s == "" || (|s| >= 2 && HexCode(s[0] as int) && HexCode(s[1] as int) && HexPairs(s[2..]))
  }

  /** Deployed code is "0x" and at least one byte of two digits. */
  lemma {:induction false} ByteCodeIs(code: string)
    ensures IsByteCode(code) <==> |code| > 2 && code[0] == '0' && code[1] == 'x' && HexPairs(code[2..])
  {
    if |code| > 2 {
      EvenHexIsPairs(code[2..]);
    }
  }

  lemma {:induction false} EvenHexIsPairs(s: string)
    ensures HexPairs(s) <==> |s| % 2 == 0 && AllHex(s)
  {
    if |s| >= 2 {
      EvenHexIsPairs(s[2..]);
      HexSplits(s);
    }
  }

  lemma HexSplits(s: string)
    requires |s| >= 2
    ensures AllHex(s) <==> HexCode(s[0] as int) && HexCode(s[1] as int) && AllHex(s[2..])
  {
    if AllHex(s[2..]) {
      assert forall i :: 2 <= i < |s| ==> s[i] == s[2..][i - 2];
    }
  }

  function CodeAt(state: WorldState, account: string): string {
    if account in state.code then state.code[account] else "0x"
  }

  ghost predicate StateRead(run: Run, header: Header, at: nat) {
    at < |run| && header.number < |run[at].blocks|
  }

  ghost function StateAt(run: Run, header: Header, at: nat): WorldState
    requires StateRead(run, header, at)
  {
    run[at].blocks[header.number].state
  }

  /** A faithful node whose chain has an acceptable head at every moment; blocks may come and go meanwhile. */
  ghost predicate Steady(run: Run, from: nat, to: nat, misdirects: bool, identity: Identity) {
    !misdirects && from <= to < |run| && forall t :: from <= t <= to ==> WellFormed(run[t]) && Admissible(run[t], identity)
  }

  /** What the entry reads have seen: a head of the configured chain. */
  ghost predicate Entered(
    run: Run, from: nat, to: nat, misdirects: bool, identity: Identity, header: Header, networkAt: nat, anchorAt: nat, at: nat)
  {
    && from <= at <= to < |run| && HeaderOf(run[at], header)
    && header.hash != "" && header.number <= MAX_SAFE_INTEGER
    && (!misdirects ==> header.number == |run[at].blocks| - 1)
    && IdentitySeen(identity, run, from, networkAt, anchorAt, to)
  }

  /** The head read at `entry` is still in place, on the configured chain, at every later moment. */
  ghost predicate HeadKept(run: Run, entry: nat, to: nat, misdirects: bool, identity: Identity, header: Header) {
    Steady(run, entry, to, misdirects, identity) && forall t :: entry <= t <= to ==> HeaderOf(run[t], header)
  }

  /** Network, latest block and anchor, in flight together. */
  method Open(provider: Node, identity: Identity)
    returns (result: Result<Header, Fault>, ghost networkAt: nat, ghost anchorAt: nat, ghost at: nat)
    requires provider.Valid()
    modifies provider
    ensures provider.Valid() && old(provider.now) <= provider.now && old(provider.failures) <= provider.failures
    ensures result == Err(RpcFailure) <==> old(provider.failures) < provider.failures
    ensures result.Ok? ==>
              Entered(provider.run, old(provider.now), provider.now, provider.misdirects, identity, result.value, networkAt, anchorAt, at)
    ensures result.Err? && result != Err(RpcFailure) ==>
              result == Err(ChainMismatch) && !Steady(provider.run, old(provider.now), provider.now, provider.misdirects, identity)
  {
    var sent := provider.now;
    ghost var start := sent;
    provider.Await();
    var network, anchor, latest;
    ghost var a, b, c;
    network, a := provider.GetNetwork(sent);
    latest, c := provider.GetLatestBlock(sent);
    anchor, b := provider.GetBlock(identity.anchorBlock, sent);
    networkAt, anchorAt, at := a, b, c;
    if network.Unavailable? || latest.Unavailable? || anchor.Unavailable? { return Err(RpcFailure), networkAt, anchorAt, at; }
    if Steady(provider.run, start, provider.now, provider.misdirects, identity) {
      SteadyAnchor(provider.run[b], identity, anchor.value);
      SteadyHead(provider.run[c], identity, latest.value);
    }
    if || latest.value.None?
       || latest.value.value.hash == ""
       || latest.value.value.number > MAX_SAFE_INTEGER
       || !Matches(identity, network.value, anchor.value)
    {
      return Err(ChainMismatch), networkAt, anchorAt, at;
    }
    return Ok(latest.value.value), networkAt, anchorAt, at;
  }

  lemma SteadyAnchor(view: View, identity: Identity, anchor: Option<Header>)
    requires WellFormed(view) && HeaderAnswer(view, identity.anchorBlock, anchor, false)
    ensures Matches(identity, identity.chainId, anchor) <==> Anchored(identity, view)
  {
    if Anchored(identity, view) {
      assert HashIsNormal(view.blocks[identity.anchorBlock].hash);
    }
  }

  lemma SteadyHead(view: View, identity: Identity, latest: Option<Header>)
    requires WellFormed(view) && Admissible(view, identity) && HeaderAnswer(view, |view.blocks| - 1, latest, false)
    ensures latest.Some? && latest.value.hash != "" && latest.value.number <= MAX_SAFE_INTEGER
  {
    assert HashIsNormal(view.blocks[|view.blocks| - 1].hash);
  }

  /** The exit reads, in flight together. */
  method Close(provider: Node, identity: Identity, header: Header)
    returns (fault: Option<Fault>, ghost networkAt: nat, ghost anchorAt: nat, ghost at: nat)
    requires provider.Valid()
    modifies provider
    ensures provider.Valid() && old(provider.now) <= provider.now && old(provider.failures) <= provider.failures
    ensures fault == Some(RpcFailure) <==> old(provider.failures) < provider.failures
    ensures fault.None? ==>
              && old(provider.now) <= at <= provider.now
              && header.number < |provider.run[at].blocks|
              && Lower(provider.run[at].blocks[header.number].hash) == Lower(header.hash)
              && IdentitySeen(identity, provider.run, old(provider.now), networkAt, anchorAt, provider.now)
    ensures fault.Some? && fault != Some(RpcFailure) ==>
              && fault == Some(NotCanonical)
              && !HeadKept(provider.run, old(provider.now), provider.now, provider.misdirects, identity, header)
  {
    var sent := provider.now;
    ghost var start := sent;
    provider.Await();
    var network, anchor, canonical;
    ghost var a, b, c;
    network, a := provider.GetNetwork(sent);
    anchor, b := provider.GetBlock(identity.anchorBlock, sent);
    canonical, c := provider.GetBlock(header.number, sent);
    networkAt, anchorAt, at := a, b, c;
    if network.Unavailable? || anchor.Unavailable? || canonical.Unavailable? {
      return Some(RpcFailure), networkAt, anchorAt, at;
    }
    if HeadKept(provider.run, start, provider.now, provider.misdirects, identity, header) {
      SteadyAnchor(provider.run[b], identity, anchor.value);
      assert HeaderOf(provider.run[c], header);
    }
    if || !Matches(identity, network.value, anchor.value)
       || canonical.value.None?
       || canonical.value.value.number != header.number
       || Lower(canonical.value.value.hash) != Lower(header.hash)
    {
      return Some(NotCanonical), networkAt, anchorAt, at;
    }
    return None, networkAt, anchorAt, at;
  }

  lemma SettledIsSteady(run: Run, from: nat, to: nat, misdirects: bool, identity: Identity)
    requires Settled(run, from, to, misdirects)
    ensures Steady(run, from, to, misdirects, identity) <==> Admissible(run[from], identity)
  {
  }

  /** On a settled chain the entry reads can only have seen its acceptable head, and it stays. */
  lemma SettledHead(
    run: Run, from: nat, to: nat, misdirects: bool, identity: Identity, header: Header, networkAt: nat, anchorAt: nat, at: nat)
    returns (b: Block)
    requires Settled(run, from, to, misdirects)
    requires Entered(run, from, to, misdirects, identity, header, networkAt, anchorAt, at)
    ensures Admissible(run[from], identity) && b == run[from].blocks[|run[from].blocks| - 1]
    ensures b.number == header.number && Kept(run, at, to, misdirects, b)
  {
    var view := run[from];
    assert forall t :: from <= t <= to ==> run[t] == view;
    assert HashIsNormal(view.blocks[identity.anchorBlock].hash);
    b := view.blocks[header.number];
  }

  /** Evidence of a completed frame: opened at `entry`, closed at `exit`. */
  ghost predicate Framed(run: Run, header: Header, entry: nat, exit: nat) {
    && entry <= exit < |run|
    && HeaderOf(run[entry], header)
    && header.number < |run[exit].blocks|
    && Lower(run[exit].blocks[header.number].hash) == Lower(header.hash)
  }

  /** On a lawful run a frame pins one block: every read by number in between hits it. */
  lemma FramePinsBlock(run: Run, header: Header, entry: nat, exit: nat) returns (b: Block)
    requires Lawful(run) && Framed(run, header, entry, exit)
    ensures b.number == header.number && b.hash == Lower(header.hash) && b.timestamp == header.timestamp
    ensures forall t :: entry <= t <= exit ==> Canonical(run[t], b)
    ensures forall t :: entry <= t <= exit ==> header.number < |run[t].blocks| && run[t].blocks[header.number] == b
  {
    b := run[entry].blocks[header.number];
    SameHashPinsBlock(run, b, entry, run[exit].blocks[header.number], exit);
    assert HashIsNormal(b.hash);
  }
}
