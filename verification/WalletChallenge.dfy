/** Wallet challenges: builder and recognisers (backend/src/lib/wallet-challenge.ts). */
module WalletChallenge {
  import opened Wrappers
  import opened Text
  import opened ChallengeText

  const TRANSACTION_PREFIX: string := NAMESPACE + "transaction:"
  const REGISTRATION_COMMITMENT_PREFIX: string := NAMESPACE + "registration-commitment:"

  datatype Purpose = Authentication | Registration

  /** `txHash` and `registrationCommitment` are optional; an empty hash counts as absent. */
  datatype Challenge = Challenge(
    address: string, purpose: Purpose, nonce: string, issuedAt: string, expiresAt: string, challengeId: string,
    txHash: string, registrationCommitment: string)

  function PurposeName(purpose: Purpose): string {
    match purpose
    case Authentication => "authentication"
    case Registration => "registration"
  }

  function StatementOf(purpose: Purpose): string {
    match purpose
    case Authentication => "Authenticate this browser" + " session with NoblePay."
    case Registration => "Authorize NoblePay to finalize" + " the referenced on-chain" + " business registration."
  }

  function EnvelopeOf(c: Challenge): Envelope {
    Envelope(c.address, StatementOf(c.purpose), c.nonce, c.issuedAt, c.expiresAt, c.challengeId)
  }

  /** The resource lines that follow the envelope. */
  function ResourceLines(c: Challenge): seq<string> {
    [PURPOSE_PREFIX + PurposeName(c.purpose)]
    + (if c.txHash != "" then [TRANSACTION_PREFIX + Lower(c.txHash)] else [])
    + (if c.purpose.Registration? then [REGISTRATION_COMMITMENT_PREFIX + Lower(c.registrationCommitment)] else [])
  }

  function WalletLines(c: Challenge, party: RelyingParty): (lines: seq<string>)
    ensures |lines| >= 14
  {
    EnvelopeLines(EnvelopeOf(c), party) + ResourceLines(c)
  }

  /** A registration challenge must carry a bytes32 commitment. */
  predicate Buildable(c: Challenge) {
    c.purpose.Registration? ==> IsHexOf(c.registrationCommitment, 64)
  }

  /** `buildWalletChallengeMessage`; the thrown error is `Err`. */
  method BuildWalletChallengeMessage(c: Challenge, party: RelyingParty) returns (message: Result<string, ()>)
    ensures message.Ok? <==> Buildable(c)
    ensures message.Ok? ==> message.value == Join(WalletLines(c, party), '\n')
  {
    var lines := EnvelopeLines(EnvelopeOf(c), party) + [PURPOSE_PREFIX + PurposeName(c.purpose)];
    if c.txHash != "" {
      lines := lines + [TRANSACTION_PREFIX + Lower(c.txHash)];
    }
    if c.purpose.Registration? {
      if c.registrationCommitment == "" || !IsHexOf(c.registrationCommitment, 64) { return Err(()); }
      lines := lines + [REGISTRATION_COMMITMENT_PREFIX + Lower(c.registrationCommitment)];
    }
    assert lines == WalletLines(c, party);
    return Ok(Join(lines, '\n'));
  }

  /** `isWalletChallengeBound`. */
  predicate IsWalletChallengeBound(message: string, party: RelyingParty) {
    var lines := Split(message, '\n');
    && lines[0] == Salutation(party)
    && ("URI: " + party.origin) in lines
    && ("Chain ID: " + party.chainId) in lines
    && "Version: 1" in lines
  }

  /** Any message whatever is bound for a relying party exactly if its lines name it, version included. */
  lemma WalletBindsIdentified(message: string, party: RelyingParty)
    ensures IsWalletChallengeBound(message, party) <==> Identifies(Split(message, '\n'), party)
  {
  }

  /** `isRegistrationChallengeBound`. */
  predicate IsRegistrationChallengeBound(message: string, txHash: string, registrationCommitment: string) {
    var lines := Split(message, '\n');
    && WithPrefix(lines, PURPOSE_PREFIX) == [PURPOSE_PREFIX + "registration"]
    && WithPrefix(lines, TRANSACTION_PREFIX) == [TRANSACTION_PREFIX + Lower(txHash)]
    && WithPrefix(lines, REGISTRATION_COMMITMENT_PREFIX) == [REGISTRATION_COMMITMENT_PREFIX + Lower(registrationCommitment)]
  }

  /** What the callers guarantee of the fields they pass: no line breaks, and no blanks in address and host. */
  predicate TidyChallenge(c: Challenge, party: RelyingParty) {
    && OneWord(party.domain) && OneLine(party.origin) && OneLine(party.chainId)
    && OneWord(c.address) && OneLine(c.nonce) && OneLine(c.issuedAt) && OneLine(c.expiresAt) && OneLine(c.challengeId)
    && OneLine(c.txHash) && OneLine(c.registrationCommitment)
  }

  lemma StatementIsTidy(c: Challenge, party: RelyingParty)
    requires TidyChallenge(c, party)
    ensures Tidy(EnvelopeOf(c), party)
  {
    assert OneLine("Authenticate this browser") && OneLine(" session with NoblePay.");
    assert OneLine("Authorize NoblePay to finalize") && OneLine(" the referenced on-chain") && OneLine(" business registration.");
    assert StatementOf(c.purpose)[0] == 'A' && RESOURCE_PREFIX[0] == '-';
  }

  // ---------------------------------------------------------------- lines and messages

  lemma LowerKeepsLines(s: string)
    requires OneLine(s)
    ensures OneLine(Lower(s))
  {
  }

  lemma ResourceLinesAreLines(c: Challenge)
    requires OneLine(c.txHash) && OneLine(c.registrationCommitment)
    ensures forall i :: 0 <= i < |ResourceLines(c)| ==> OneLine(ResourceLines(c)[i])
  {
    LowerKeepsLines(c.txHash);
    LowerKeepsLines(c.registrationCommitment);
    assert OneLine(NAMESPACE);
    assert OneLine(PURPOSE_PREFIX) && OneLine("authentication") && OneLine("registration");
    assert OneLine(TRANSACTION_PREFIX) && OneLine(REGISTRATION_COMMITMENT_PREFIX);
  }

  lemma WalletMessageSplits(c: Challenge, party: RelyingParty)
    requires TidyChallenge(c, party)
    ensures Split(Join(WalletLines(c, party), '\n'), '\n') == WalletLines(c, party)
  {
    StatementIsTidy(c, party);
    EnvelopeLinesAreLines(EnvelopeOf(c), party);
    ResourceLinesAreLines(c);
    SplitJoin(WalletLines(c, party), '\n');
  }

  ghost function PurposeStatement(c: Challenge): string {
    if c.purpose.Registration? then "Authorize NoblePay to finalize" + " the referenced on-chain" + " business registration."
    else "Authenticate this browser" + " session with NoblePay."
  }

  /** The resources as a wallet shows them. */
  ghost function ShownResources(c: Challenge): seq<string> {
    [("- urn:noblepay:" + "purpose:") + (if c.purpose.Registration? then "registration" else "authentication")]
    + (if c.txHash != "" then [("- urn:noblepay:" + "transaction:") + Lower(c.txHash)] else [])
    + (if c.purpose.Registration? then [("- urn:noblepay:" + "registration-commitment:") + Lower(c.registrationCommitment)] else [])
  }

  lemma WalletLinesSay(c: Challenge, party: RelyingParty)
    ensures EnvelopeSays(WalletLines(c, party),
                         Envelope(c.address, PurposeStatement(c), c.nonce, c.issuedAt, c.expiresAt, c.challengeId), party)
    ensures WalletLines(c, party)[13..] == ResourceLines(c)
  {
  }

  /** What a wallet reads in a message: the labelled lines, and the purpose, transaction and commitment as resources. */
  lemma WalletMessageSays(c: Challenge, party: RelyingParty)
    requires TidyChallenge(c, party)
    ensures var lines := Split(Join(WalletLines(c, party), '\n'), '\n');
            && EnvelopeSays(lines, Envelope(c.address, PurposeStatement(c), c.nonce, c.issuedAt, c.expiresAt, c.challengeId), party)
            && lines[13..] == ShownResources(c)
  {
    WalletMessageSplits(c, party);
    WalletLinesSay(c, party);
    assert ResourceLines(c) == ShownResources(c);
  }

  function PurposeLine(c: Challenge): string {
    PURPOSE_PREFIX + PurposeName(c.purpose)
  }

  function TransactionLine(c: Challenge): string {
    TRANSACTION_PREFIX + Lower(c.txHash)
  }

  function CommitmentLine(c: Challenge): string {
    REGISTRATION_COMMITMENT_PREFIX + Lower(c.registrationCommitment)
  }

  lemma FilterMessage(c: Challenge, party: RelyingParty, prefix: string)
    requires TidyChallenge(c, party) && RESOURCE_PREFIX <= prefix
    ensures WithPrefix(WalletLines(c, party), prefix) ==
            Matching(PurposeLine(c), prefix)
            + (if c.txHash != "" then Matching(TransactionLine(c), prefix) else [])
            + (if c.purpose.Registration? then Matching(CommitmentLine(c), prefix) else [])
  {
    var transaction := if c.txHash != "" then [TransactionLine(c)] else [];
    var commitment := if c.purpose.Registration? then [CommitmentLine(c)] else [];
    StatementIsTidy(c, party);
    EnvelopeHasNoResources(EnvelopeOf(c), party, prefix);
    WithPrefixConcat(EnvelopeLines(EnvelopeOf(c), party), ResourceLines(c), prefix);
    WithPrefixConcat([PurposeLine(c)] + transaction, commitment, prefix);
    WithPrefixConcat([PurposeLine(c)], transaction, prefix);
    WithPrefixOne(PurposeLine(c), prefix);
    WithPrefixOne(TransactionLine(c), prefix);
    WithPrefixOne(CommitmentLine(c), prefix);
  }

  /** The three kinds of resource lines are told apart by their first letter after the namespace. */
  lemma PrefixesAreDistinct(c: Challenge)
    ensures PURPOSE_PREFIX <= PurposeLine(c) && !(PURPOSE_PREFIX <= TransactionLine(c)) && !(PURPOSE_PREFIX <= CommitmentLine(c))
    ensures !(TRANSACTION_PREFIX <= PurposeLine(c)) && TRANSACTION_PREFIX <= TransactionLine(c) && !(TRANSACTION_PREFIX <= CommitmentLine(c))
    ensures !(REGISTRATION_COMMITMENT_PREFIX <= PurposeLine(c)) && !(REGISTRATION_COMMITMENT_PREFIX <= TransactionLine(c))
    ensures REGISTRATION_COMMITMENT_PREFIX <= CommitmentLine(c)
  {
    assert PURPOSE_PREFIX[15] == 'p' && TRANSACTION_PREFIX[15] == 't' && REGISTRATION_COMMITMENT_PREFIX[15] == 'r';
    NotAPrefix(PURPOSE_PREFIX, PurposeName(c.purpose), TRANSACTION_PREFIX, 15);
    NotAPrefix(PURPOSE_PREFIX, PurposeName(c.purpose), REGISTRATION_COMMITMENT_PREFIX, 15);
    NotAPrefix(TRANSACTION_PREFIX, Lower(c.txHash), PURPOSE_PREFIX, 15);
    NotAPrefix(TRANSACTION_PREFIX, Lower(c.txHash), REGISTRATION_COMMITMENT_PREFIX, 15);
    NotAPrefix(REGISTRATION_COMMITMENT_PREFIX, Lower(c.registrationCommitment), PURPOSE_PREFIX, 15);
    NotAPrefix(REGISTRATION_COMMITMENT_PREFIX, Lower(c.registrationCommitment), TRANSACTION_PREFIX, 15);
  }

  /** What the recognisers' filters find in a message. */
  lemma ResourcesFound(c: Challenge, party: RelyingParty)
    requires TidyChallenge(c, party)
    ensures WithPrefix(WalletLines(c, party), PURPOSE_PREFIX) == [PurposeLine(c)]
    ensures WithPrefix(WalletLines(c, party), TRANSACTION_PREFIX) == (if c.txHash != "" then [TransactionLine(c)] else [])
    ensures WithPrefix(WalletLines(c, party), REGISTRATION_COMMITMENT_PREFIX) ==
            (if c.purpose.Registration? then [CommitmentLine(c)] else [])
  {
    PurposeFound(c, party);
    TransactionFound(c, party);
    CommitmentFound(c, party);
  }

  lemma PurposeFound(c: Challenge, party: RelyingParty)
    requires TidyChallenge(c, party)
    ensures WithPrefix(WalletLines(c, party), PURPOSE_PREFIX) == [PurposeLine(c)]
  {
    PrefixesAreDistinct(c);
    FilterMessage(c, party, PURPOSE_PREFIX);
  }

  lemma TransactionFound(c: Challenge, party: RelyingParty)
    requires TidyChallenge(c, party)
    ensures WithPrefix(WalletLines(c, party), TRANSACTION_PREFIX) == (if c.txHash != "" then [TransactionLine(c)] else [])
  {
    PrefixesAreDistinct(c);
    FilterMessage(c, party, TRANSACTION_PREFIX);
  }

  lemma CommitmentFound(c: Challenge, party: RelyingParty)
    requires TidyChallenge(c, party)
    ensures WithPrefix(WalletLines(c, party), REGISTRATION_COMMITMENT_PREFIX) ==
            (if c.purpose.Registration? then [CommitmentLine(c)] else [])
  {
    PrefixesAreDistinct(c);
    FilterMessage(c, party, REGISTRATION_COMMITMENT_PREFIX);
  }

  lemma NamesDiffer()
    ensures "authentication" != "registration"
    ensures PURPOSE_PREFIX + "authentication" != PURPOSE_PREFIX + "registration"
  {
  }

  // ---------------------------------------------------------------- binding and separation

  /**
   * A message is registration-bound for exactly the transaction and profile commitment it was built
   * with, up to hexadecimal case, and only if it was built for a registration with a transaction.
   */
  lemma RegistrationBindsExactly(c: Challenge, party: RelyingParty, txHash: string, registrationCommitment: string)
    requires TidyChallenge(c, party)
    ensures IsRegistrationChallengeBound(Join(WalletLines(c, party), '\n'), txHash, registrationCommitment) <==>
            && c.purpose.Registration? && c.txHash != ""
            && Lower(txHash) == Lower(c.txHash)
            && Lower(registrationCommitment) == Lower(c.registrationCommitment)
  {
    WalletMessageSplits(c, party);
    ResourcesFound(c, party);
    NamesDiffer();
    SameLine(PURPOSE_PREFIX, PurposeName(c.purpose), "registration");
    SameLine(TRANSACTION_PREFIX, Lower(c.txHash), Lower(txHash));
    SameLine(REGISTRATION_COMMITMENT_PREFIX, Lower(c.registrationCommitment), Lower(registrationCommitment));
  }

  lemma ResourcesAreOther(c: Challenge)
    ensures IsOther(StatementOf(c.purpose)) && forall i :: 0 <= i < |ResourceLines(c)| ==> IsOther(ResourceLines(c)[i])
  {
    assert StatementOf(c.purpose)[0] == 'A';
    assert PURPOSE_PREFIX[0] == '-' && TRANSACTION_PREFIX[0] == '-' && REGISTRATION_COMMITMENT_PREFIX[0] == '-';
  }

  /** A wallet message is bound for exactly the relying party it was built for: host, origin and chain. */
  lemma WalletBindsExactly(c: Challenge, party: RelyingParty, verifier: RelyingParty)
    requires TidyChallenge(c, party) && OneWord(verifier.origin)
    ensures IsWalletChallengeBound(Join(WalletLines(c, party), '\n'), verifier) <==> party == verifier
  {
    WalletMessageSplits(c, party);
    ResourcesAreOther(c);
    EnvelopeIsBound(EnvelopeOf(c), ResourceLines(c), party);
    MessageNamesParty(EnvelopeOf(c), ResourceLines(c), party, verifier);
  }

  lemma EnvelopeIsBound(e: Envelope, rest: seq<string>, party: RelyingParty)
    ensures var lines := EnvelopeLines(e, party) + rest;
            && lines[0] == Salutation(party)
            && ("URI: " + party.origin) in lines && ("Chain ID: " + party.chainId) in lines && "Version: 1" in lines
  {
  }

  /** A message fixes every field of its challenge, up to the hexadecimal case of hash and commitment. */
  lemma WalletMessageIsInjective(c: Challenge, p: RelyingParty, d: Challenge, q: RelyingParty)
    requires TidyChallenge(c, p) && TidyChallenge(d, q)
    requires Join(WalletLines(c, p), '\n') == Join(WalletLines(d, q), '\n')
    ensures p == q && EnvelopeOf(c) == EnvelopeOf(d) && c.purpose == d.purpose
    ensures Lower(c.txHash) == Lower(d.txHash)
    ensures c.purpose.Registration? ==> Lower(c.registrationCommitment) == Lower(d.registrationCommitment)
  {
    WalletMessageSplits(c, p);
    WalletMessageSplits(d, q);
    var l, m := WalletLines(c, p), WalletLines(d, q);
    assert EnvelopeLines(EnvelopeOf(c), p) == l[..13] == m[..13] == EnvelopeLines(EnvelopeOf(d), q);
    EnvelopeIsInjective(EnvelopeOf(c), p, EnvelopeOf(d), q);
    ResourcesFound(c, p);
    ResourcesFound(d, q);
    NamesDiffer();
    SameLine(PURPOSE_PREFIX, PurposeName(c.purpose), PurposeName(d.purpose));
    SameLine(TRANSACTION_PREFIX, Lower(c.txHash), Lower(d.txHash));
    SameLine(REGISTRATION_COMMITMENT_PREFIX, Lower(c.registrationCommitment), Lower(d.registrationCommitment));
  }

  lemma SameLine(prefix: string, a: string, b: string)
    ensures [prefix + a] == [prefix + b] <==> a == b
  {
    SameAfterPrefix(prefix, a, b);
    assert [prefix + a] == [prefix + b] ==> [prefix + a][0] == [prefix + b][0];
  }
}
