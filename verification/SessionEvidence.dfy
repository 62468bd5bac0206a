/**
 * What stands on the chain behind a session: the answers a sign-in gets (backend/src/routes/auth.ts) come from the registry
 * and signature checks it calls, so each session rests on two blocks that were canonical while those checks ran.
 */
module SessionEvidence {
  import opened Wrappers
  import opened Chain
  import opened NetworkIdentity
  import ChallengeText
  import RegistryAuthorization
  import Sessions = ChallengeSessions
  import WalletSignature

  /** The configured chain identity, the registry contract and the cryptographic functions. */
  datatype Setting = Setting(
    identity: Identity, registry: string, checksum: string -> Option<string>, wallets: WalletSignature.Wallets)

  /** The moments between the call of a check and its return. */
  datatype Span = Span(from: nat, to: nat)

  /** A run of the registry check within the span returned this authorization, and saw the chain identity at both ends. */
  ghost predicate RegistryAnswered(
    run: Run, w: Setting, span: Span, address: string, current: RegistryAuthorization.Authorization, header: Header,
    at: RegistryAuthorization.Reads)
  {
    && span.from <= at.entry && at.exit <= span.to
    && RegistryAuthorization.Collected(run, w.registry, address, w.checksum, current, header, at)
    && IdentitySeen(w.identity, run, span.from, at.networkIn, at.anchorIn, at.code)
    && IdentitySeen(w.identity, run, at.details, at.networkOut, at.anchorOut, span.to)
  }

  /** A run of the signature check within the span returned this verdict, and saw the chain identity at both ends. */
  ghost predicate SignatureAnswered(
    run: Run, w: Setting, span: Span, address: string, message: string, signature: string, valid: bool, header: Header,
    at: WalletSignature.Steps)
  {
    && span.from <= at.entry && at.exit <= span.to
    && WalletSignature.Judged(run, w.wallets, address, message, signature, valid, header, at)
    && IdentitySeen(w.identity, run, span.from, at.networkIn, at.anchorIn, at.code)
    && IdentitySeen(w.identity, run, at.call, at.networkOut, at.anchorOut, span.to)
  }

  /** The registry check of a sign-in answers exactly so. */
  method AskRegistry(provider: Node, w: Setting, address: string)
    returns (result: Result<RegistryAuthorization.Authorization, RegistryAuthorization.Refusal>, ghost header: Header,
      ghost at: RegistryAuthorization.Reads)
    requires provider.Valid()
    modifies provider
    ensures provider.Valid() && old(provider.now) <= provider.now && old(provider.failures) <= provider.failures
    ensures w.checksum(address) == Some(address) ==>
              RegistryAuthorization.Accounted(
                provider.run, old(provider.now), provider.now, provider.misdirects, old(provider.failures) < provider.failures,
                w.identity, w.registry, w.checksum, address, result, header, at)
    ensures result.Ok? && w.checksum(address) == Some(address) ==>
              RegistryAnswered(provider.run, w, Span(old(provider.now), provider.now), address, result.value, header, at)
  {
    result, header, at := RegistryAuthorization.GetCurrentAuthorization(provider, w.identity, w.registry, w.checksum, address);
  }

  /** The signature check of a sign-in answers exactly so. */
  method AskSignature(provider: Node, w: Setting, address: string, message: string, signature: string)
    returns (result: Result<bool, WalletSignature.Refusal>, ghost header: Header, ghost at: WalletSignature.Steps)
    requires provider.Valid()
    modifies provider
    ensures provider.Valid() && old(provider.now) <= provider.now && old(provider.failures) <= provider.failures
    ensures w.wallets.checksum(address) == Some(address) ==>
              WalletSignature.Accounted(
                provider.run, old(provider.now), provider.now, provider.misdirects, old(provider.failures) < provider.failures,
                w.identity, w.wallets, address, message, signature, result, header, at)
    ensures result.Ok? && w.wallets.checksum(address) == Some(address) ==>
              SignatureAnswered(provider.run, w, Span(old(provider.now), provider.now), address, message, signature,
                                result.value, header, at)
  {
    result, header, at := WalletSignature.IsSignatureValid(provider, w.identity, w.wallets, address, message, signature);
  }

  /** An answer given by a check that ran during the span. */
  ghost predicate GenuineAnswer(run: Run, w: Setting, span: Span, a: Sessions.Answer) {
    match a
    case RegistrySaid(_, address, current, _) =>
      exists header, at :: RegistryAnswered(run, w, span, address, current, header, at)
    case SignatureSaid(_, address, message, signature, valid) =>
      exists header, at :: SignatureAnswered(run, w, span, address, message, signature, valid, header, at)
  }

  /** All answers in a log were given by the two checks, each during its own span. */
  ghost predicate Genuine(run: Run, w: Setting, log: seq<Sessions.Answer>, spans: seq<Span>) {
    |spans| == |log| && forall i :: 0 <= i < |log| ==> GenuineAnswer(run, w, spans[i], log[i])
  }

  /** The block was canonical at some moment of the span, and the configured chain was seen during it. */
  ghost predicate AnchoredDuring(run: Run, w: Setting, span: Span, b: Block) {
    && (exists t :: span.from <= t <= span.to < |run| && Canonical(run[t], b))
    && (exists networkAt, anchorAt :: IdentitySeen(w.identity, run, span.from, networkAt, anchorAt, span.to))
  }

  /** The request's own registry answer: one block that says its wallet is active, with the session's tier and role. */
  ghost predicate AuthorizedBy(run: Run, w: Setting, span: Span, a: Sessions.Answer, session: Sessions.Session, b: Block) {
    && a.RegistrySaid? && a.request == session.request && a.address == session.credentials.address
    && AnchoredDuring(run, w, span, b)
    && RegistryAuthorization.DescribesBlock(a.current, b, w.registry, w.checksum)
    && a.current.wallet == session.credentials.address && a.current.active
    && session.tier == a.current.tier && (session.role.SuperAdmin? <==> a.current.isAdmin)
  }

  /** The request's own signature answer: one block at which its wallet has signed the stored message of its challenge. */
  ghost predicate SignedAt(
    run: Run, w: Setting, span: Span, a: Sessions.Answer, s: Sessions.State, session: Sessions.Session, b: Block)
  {
    && a.SignatureSaid? && a.request == session.request && a.address == session.credentials.address && a.valid
    && session.credentials.challengeId in s.table && a.message == s.table[session.credentials.challengeId].message
    && a.signature == session.credentials.signature
    && AnchoredDuring(run, w, span, b)
    && WalletSignature.Signed(b.state, w.wallets, a.address, a.message, a.signature)
  }

  lemma AnchorsDuring(run: Run, w: Setting, span: Span, networkAt: nat, anchorAt: nat, entry: nat, seen: nat, b: Block)
    requires span.from <= entry <= span.to < |run| && seen <= span.to && Canonical(run[entry], b)
    requires IdentitySeen(w.identity, run, span.from, networkAt, anchorAt, seen)
    ensures AnchoredDuring(run, w, span, b)
  {
    assert IdentitySeen(w.identity, run, span.from, networkAt, anchorAt, span.to);
  }

  lemma RegistryAnswerHasBlock(run: Run, w: Setting, span: Span, a: Sessions.Answer) returns (b: Block)
    requires Lawful(run) && a.RegistrySaid? && GenuineAnswer(run, w, span, a)
    ensures AnchoredDuring(run, w, span, b)
    ensures a.current.wallet == a.address && RegistryAuthorization.DescribesBlock(a.current, b, w.registry, w.checksum)
  {
    var header, at :| RegistryAnswered(run, w, span, a.address, a.current, header, at);
    b := RegistryAuthorization.AuthorizationIsOneBlock(run, w.registry, a.address, w.checksum, a.current, header, at);
    AnchorsDuring(run, w, span, at.networkIn, at.anchorIn, at.entry, at.code, b);
  }

  lemma SignatureAnswerHasBlock(run: Run, w: Setting, span: Span, a: Sessions.Answer) returns (b: Block)
    requires Lawful(run) && a.SignatureSaid? && a.valid && GenuineAnswer(run, w, span, a)
    ensures AnchoredDuring(run, w, span, b)
    ensures WalletSignature.Signed(b.state, w.wallets, a.address, a.message, a.signature)
  {
    var header, at :| SignatureAnswered(run, w, span, a.address, a.message, a.signature, a.valid, header, at);
    b := WalletSignature.VerdictIsOneBlock(run, w.wallets, a.address, a.message, a.signature, a.valid, header, at);
    AnchorsDuring(run, w, span, at.networkIn, at.anchorIn, at.entry, at.code, b);
  }

  /** Positions in the log of the two answers behind a justified session. */
  lemma JustifyingAnswers(s: Sessions.State, session: Sessions.Session, party: ChallengeText.RelyingParty)
    returns (registryAt: nat, signatureAt: nat)
    requires Sessions.Justified(s, session, party)
    ensures registryAt < |s.log| && signatureAt < |s.log| && session.credentials.challengeId in s.table
    ensures var a := s.log[registryAt];
            && a.RegistrySaid? && a.request == session.request && a.address == session.credentials.address && a.current.active
            && session.tier == a.current.tier && (session.role.SuperAdmin? <==> a.current.isAdmin)
    ensures s.log[signatureAt] ==
            Sessions.SignatureSaid(session.request, session.credentials.address,
                                   s.table[session.credentials.challengeId].message, session.credentials.signature, true)
  {
    var c := session.credentials;
    var row, current, guard :|
      && Sessions.CopyOf(s, c, row) && Sessions.SignatureBacked(s, session.request, c, row)
      && Sessions.RegistryBacked(s, session.request, c, current, guard)
      && session.tier == current.tier && (session.role.SuperAdmin? <==> current.isAdmin);
    registryAt :| 0 <= registryAt < |s.log| && s.log[registryAt] == Sessions.RegistrySaid(session.request, c.address, current, guard);
    signatureAt :| 0 <= signatureAt < |s.log|
                   && s.log[signatureAt] == Sessions.SignatureSaid(session.request, c.address, row.message, c.signature, true);
  }

  /**
   * Sign-in end to end: over every interleaving of requests and every lawful chain, each session has a registry answer and a
   * signature answer of its own request, and each rests on one block canonical while that check ran on the configured chain:
   * there its wallet is active with the session's tier and role, and its signature on the stored challenge is valid.
   */
  lemma SessionsRestOnCanonicalBlocks(
    run: Run, w: Setting, spans: seq<Span>, events: seq<Sessions.Event>, party: ChallengeText.RelyingParty, i: nat)
    returns (registryAt: nat, authorization: Block, signatureAt: nat, signature: Block)
    requires Lawful(run) && Genuine(run, w, Sessions.Run(Sessions.EMPTY, events, party).log, spans)
    requires i < |Sessions.Run(Sessions.EMPTY, events, party).sessions|
    ensures var s := Sessions.Run(Sessions.EMPTY, events, party);
            && registryAt < |s.log| && signatureAt < |s.log|
            && AuthorizedBy(run, w, spans[registryAt], s.log[registryAt], s.sessions[i], authorization)
            && SignedAt(run, w, spans[signatureAt], s.log[signatureAt], s, s.sessions[i], signature)
  {
    Sessions.ChallengesMintAtMostOneSession(events, party);
    var s := Sessions.Run(Sessions.EMPTY, events, party);
    registryAt, signatureAt := JustifyingAnswers(s, s.sessions[i], party);
    authorization := RegistryAnswerHasBlock(run, w, spans[registryAt], s.log[registryAt]);
    signature := SignatureAnswerHasBlock(run, w, spans[signatureAt], s.log[signatureAt]);
  }
}
