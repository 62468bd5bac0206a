/** Validation and two-party signing of channel-state artifacts (src/lib/channel-state.ts). */
module ChannelSigning {
  import opened Wrappers
  import opened Text
  import opened ChannelState

  /** `channelStateTypedData`. */
  function TypedDataOf(a: Artifact, lib: Library): TypedData
    requires SchemaValid(a)
  {
    var n := Normalize(a, lib);
    NormalFormIsStable(a, lib);
    TypedData(
      BigInt(n.chainId), n.verifyingContract,
      n.state.channelId, BigInt(n.state.balanceA), BigInt(n.state.balanceB), BigInt(n.state.nonce), BigInt(n.state.stateEpoch),
      lib.keccak(StateTypeText(n.state.stateType)))
  }

  datatype Expected = Expected(
    chainId: int, verifyingContract: string, channelId: string, partyA: string, partyB: string,
    totalDeposit: int, minimumNonceExclusive: int, stateEpoch: int, stateType: StateType)

  /** The recovered signers. */
  datatype Signers = Signers(partyA: Option<string>, partyB: Option<string>)

  /** `verifyPartySignature`; `lib.verifier` is the given verifier, or EOA recovery compared with the address. */
  function VerifyPartySignature(
    signature: string, expectedSigner: string, mismatch: ChannelError, data: TypedData, lib: Library): Result<string, ChannelError>
  {
    if !IsHexOf(expectedSigner, 40) then Err(InvalidAddress)
    else
      var address := lib.checksum(expectedSigner);
      if lib.verifier(address, signature, data) then Ok(address) else Err(mismatch)
  }

  function VerifySlot(
    slot: Option<string>, party: string, mismatch: ChannelError, data: TypedData, lib: Library): Result<Option<string>, ChannelError>
  {
    if slot.None? then Ok(None)
    else
      match VerifyPartySignature(slot.value, party, mismatch, data, lib)
      case Err(e) => Err(e)
      case Ok(address) => Ok(Some(address))
  }

  /** `validateChannelStateArtifact`. */
  function Validate(a: Artifact, expected: Expected, lib: Library): Result<Signers, ChannelError> {
    if !SchemaValid(a) then Err(SchemaMismatch)
    else
      NormalFormIsStable(a, lib);
      var n := Normalize(a, lib);
      if n.chainId != IntText(expected.chainId) then Err(WrongChain)
      else if !IsHexOf(expected.verifyingContract, 40) then Err(InvalidAddress)
      else if n.verifyingContract != lib.checksum(expected.verifyingContract) then Err(WrongDeployment)
      else if n.state.channelId != Lower(expected.channelId) then Err(WrongChannel)
      else if n.state.stateType != expected.stateType then Err(WrongStateType)
      else if BigInt(n.state.stateEpoch) != expected.stateEpoch then Err(WrongEpoch)
      else if BigInt(n.state.nonce) <= expected.minimumNonceExclusive then Err(StaleNonce)
      else if BigInt(n.state.balanceA) + BigInt(n.state.balanceB) != expected.totalDeposit then Err(WrongTotal)
      else VerifySlots(n.signatures, expected, TypedDataOf(n, lib), lib)
  }

  function VerifySlots(s: Signatures, expected: Expected, data: TypedData, lib: Library): Result<Signers, ChannelError> {
    match VerifySlot(s.partyA, expected.partyA, BadSignatureA, data, lib)
    case Err(e) => Err(e)
    case Ok(a) =>
      match VerifySlot(s.partyB, expected.partyB, BadSignatureB, data, lib)
      case Err(e) => Err(e)
      case Ok(b) => Ok(Signers(a, b))
  }

  /** `attachChannelStateSignature`. */
  function Attach(a: Artifact, signer: string, signedValue: string, expected: Expected, lib: Library): Result<Artifact, ChannelError> {
    if Validate(a, expected, lib).Err? then Err(Validate(a, expected, lib).error)
    else if !IsHexOf(signer, 40) || !IsHexOf(expected.partyA, 40) || !IsHexOf(expected.partyB, 40) then Err(InvalidAddress)
    else
      var connected := lib.checksum(signer);
      var partyA, partyB := lib.checksum(expected.partyA), lib.checksum(expected.partyB);
      if connected != partyA && connected != partyB then Err(NotAParty)
      else
        match VerifyPartySignature(signedValue, connected, BadWalletSignature, TypedDataOf(a, lib), lib)
        case Err(e) => Err(e)
        case Ok(_) =>
          Ok(a.(signatures := if connected == partyA then a.signatures.(partyA := Some(signedValue))
                              else a.signatures.(partyB := Some(signedValue))))
  }

  // ---------------------------------------------------------------- typed data

  /** What the parties sign on an artifact, field by field; the state type enters as the hash of its name. */
  ghost function SignedData(a: Artifact, lib: Library): TypedData
    requires SchemaValid(a)
  {
    TypedData(
      chainId := BigInt(a.chainId), verifyingContract := lib.checksum(a.verifyingContract),
      channelId := Lower(a.state.channelId),
      balanceA := BigInt(a.state.balanceA), balanceB := BigInt(a.state.balanceB),
      nonce := BigInt(a.state.nonce), stateEpoch := BigInt(a.state.stateEpoch),
      stateType := lib.keccak(match a.state.stateType case Close => "CLOSE" case State => "STATE"))
  }

  /** What the parties sign on a created artifact: the very numbers it was created from. */
  ghost function InputData(input: CreateInput, lib: Library): TypedData
    requires input.chainId > 0 && input.balanceA >= 0 && input.balanceB >= 0 && input.nonce > 0 && input.stateEpoch >= 0
  {
    TypedData(
      chainId := input.chainId, verifyingContract := lib.checksum(input.verifyingContract),
      channelId := Lower(input.channelId),
      balanceA := input.balanceA, balanceB := input.balanceB,
      nonce := input.nonce, stateEpoch := input.stateEpoch,
      stateType := lib.keccak(match input.stateType case Close => "CLOSE" case State => "STATE"))
  }

  /** Every field of the typed data is the artifact's field of the same name. */
  lemma TypedDataNamesFields(a: Artifact, lib: Library)
    requires SchemaValid(a)
    ensures TypedDataOf(a, lib) == SignedData(a, lib)
  {
    SameChecksum(a.verifyingContract, a.verifyingContract, lib);
  }

  lemma SameSignedData(a: Artifact, b: Artifact, lib: Library)
    requires SchemaValid(a) && SchemaValid(b) && SameState(a, b)
    ensures SignedData(a, lib) == SignedData(b, lib)
  {
    SameChecksum(a.verifyingContract, b.verifyingContract, lib);
  }

  /** A created artifact is signed on the numbers it was created from. */
  lemma CreatedDataIsTheInput(input: CreateInput, lib: Library)
    requires Create(input, lib).Ok?
    ensures SchemaValid(Create(input, lib).value) && input.chainId > 0 && input.nonce > 0
    ensures input.balanceA >= 0 && input.balanceB >= 0 && input.stateEpoch >= 0
    ensures TypedDataOf(Create(input, lib).value, lib) == InputData(input, lib)
  {
    CreatesExactly(input, lib);
    TypedDataNamesFields(Create(input, lib).value, lib);
    SameChecksum(Create(input, lib).value.verifyingContract, input.verifyingContract, lib);
  }

  /** The same state, as the contract sees it: numbers, and hexadecimal values up to case. */
  predicate SameState(a: Artifact, b: Artifact)
    requires SchemaValid(a) && SchemaValid(b)
  {
    && BigInt(a.chainId) == BigInt(b.chainId) && Lower(a.verifyingContract) == Lower(b.verifyingContract)
    && Lower(a.state.channelId) == Lower(b.state.channelId)
    && BigInt(a.state.balanceA) == BigInt(b.state.balanceA) && BigInt(a.state.balanceB) == BigInt(b.state.balanceB)
    && BigInt(a.state.nonce) == BigInt(b.state.nonce) && BigInt(a.state.stateEpoch) == BigInt(b.state.stateEpoch)
    && a.state.stateType == b.state.stateType
  }

  /** The signed data depends on the state alone, never on a signature slot; with distinct type hashes it determines the state. */
  lemma TypedDataIsTheState(a: Artifact, b: Artifact, lib: Library)
    requires SchemaValid(a) && SchemaValid(b)
    ensures SameState(a, b) ==> TypedDataOf(a, lib) == TypedDataOf(b, lib)
    ensures lib.keccak("CLOSE") != lib.keccak("STATE") && TypedDataOf(a, lib) == TypedDataOf(b, lib) ==> SameState(a, b)
  {
    SameChecksum(a.verifyingContract, b.verifyingContract, lib);
  }

  lemma SameChecksum(s: string, t: string, lib: Library)
    requires IsHexOf(s, 40) && IsHexOf(t, 40)
    ensures lib.checksum(s) == lib.checksum(t) <==> Lower(s) == Lower(t)
    ensures IsHexOf(lib.checksum(s), 40) && lib.checksum(lib.checksum(s)) == lib.checksum(s)
  {
  }

  lemma NormalFormIsSameState(a: Artifact, lib: Library)
    requires SchemaValid(a)
    ensures SchemaValid(Normalize(a, lib)) && SameState(a, Normalize(a, lib))
    ensures TypedDataOf(Normalize(a, lib), lib) == TypedDataOf(a, lib)
  {
    NormalFormIsStable(a, lib);
    SameChecksum(a.verifyingContract, a.verifyingContract, lib);
    LowerIdempotent(a.state.channelId);
    TypedDataIsTheState(a, Normalize(a, lib), lib);
  }

  // ---------------------------------------------------------------- validation

  /** The state is the expected one, with a fresh nonce and balances that add up to the escrow. */
  predicate Agrees(a: Artifact, expected: Expected)
    requires SchemaValid(a)
  {
    && BigInt(a.chainId) == expected.chainId
    && IsHexOf(expected.verifyingContract, 40) && Lower(a.verifyingContract) == Lower(expected.verifyingContract)
    && Lower(a.state.channelId) == Lower(expected.channelId)
    && a.state.stateType == expected.stateType
    && BigInt(a.state.stateEpoch) == expected.stateEpoch
    && BigInt(a.state.nonce) > expected.minimumNonceExclusive
    && BigInt(a.state.balanceA) + BigInt(a.state.balanceB) == expected.totalDeposit
  }

  /** An empty slot, or a signature of the party on the state. */
  predicate SlotHolds(slot: Option<string>, party: string, data: TypedData, lib: Library) {
    slot.Some? ==> IsHexOf(party, 40) && lib.verifier(lib.checksum(party), slot.value, data)
  }

  function SlotSigner(slot: Option<string>, party: string, lib: Library): Option<string> {
    if slot.Some? then Some(lib.checksum(party)) else None
  }

  lemma SameIntText(s: string, n: int)
    requires IsCanonical(s)
    ensures s == IntText(n) <==> BigInt(s) == n
  {
    IntTextIsCanonical(n);
    DigitsOfValue(s);
  }

  lemma SlotIsVerified(slot: Option<string>, party: string, mismatch: ChannelError, data: TypedData, lib: Library)
    ensures var r := VerifySlot(LowerOrNull(slot), party, mismatch, data, lib);
            && (r.Ok? <==> SlotHolds(slot, party, data, lib))
            && (r.Ok? ==> r.value == SlotSigner(slot, party, lib))
  {
    if slot.Some? && IsHexOf(party, 40) {
      assert lib.verifier(lib.checksum(party), slot.value, data)
          == lib.verifier(lib.checksum(party), Lower(slot.value), data);
    }
  }

  /** Validation succeeds exactly for the expected state with genuine signatures, and names exactly the parties that signed. */
  lemma ValidatesExactly(a: Artifact, expected: Expected, lib: Library)
    ensures Validate(a, expected, lib).Ok? <==>
            && SchemaValid(a) && Agrees(a, expected)
            && SlotHolds(a.signatures.partyA, expected.partyA, SignedData(a, lib), lib)
            && SlotHolds(a.signatures.partyB, expected.partyB, SignedData(a, lib), lib)
    ensures Validate(a, expected, lib).Ok? ==>
              Validate(a, expected, lib).value ==
              Signers(SlotSigner(a.signatures.partyA, expected.partyA, lib), SlotSigner(a.signatures.partyB, expected.partyB, lib))
  {
    if SchemaValid(a) {
      NormalFormIsSameState(a, lib);
      TypedDataNamesFields(a, lib);
      SameIntText(a.chainId, expected.chainId);
      if IsHexOf(expected.verifyingContract, 40) {
        SameChecksum(a.verifyingContract, expected.verifyingContract, lib);
      }
      var data := TypedDataOf(a, lib);
      SlotIsVerified(a.signatures.partyA, expected.partyA, BadSignatureA, data, lib);
      SlotIsVerified(a.signatures.partyB, expected.partyB, BadSignatureB, data, lib);
    }
  }

  /** What a refusal over the slots says. */
  ghost predicate SlotsRefused(s: Signatures, expected: Expected, data: TypedData, lib: Library, reason: ChannelError) {
    match reason
    case BadSignatureA => !SlotHolds(s.partyA, expected.partyA, data, lib)
    case BadSignatureB => SlotHolds(s.partyA, expected.partyA, data, lib) && !SlotHolds(s.partyB, expected.partyB, data, lib)
    case InvalidAddress =>
      || (s.partyA.Some? && !IsHexOf(expected.partyA, 40))
      || (s.partyB.Some? && !IsHexOf(expected.partyB, 40))
    case _ => false
  }

  lemma SlotRefusalsAreTrue(s: Signatures, expected: Expected, data: TypedData, lib: Library)
    ensures var r := VerifySlots(Signatures(LowerOrNull(s.partyA), LowerOrNull(s.partyB)), expected, data, lib);
            r.Err? ==> SlotsRefused(s, expected, data, lib, r.error)
  {
    SlotIsVerified(s.partyA, expected.partyA, BadSignatureA, data, lib);
    SlotIsVerified(s.partyB, expected.partyB, BadSignatureB, data, lib);
  }

  /** What a refusal of the state says. */
  ghost predicate StateRefused(a: Artifact, expected: Expected, reason: ChannelError)
    requires SchemaValid(a)
  {
    match reason
    case WrongChain => BigInt(a.chainId) != expected.chainId
    case InvalidAddress => !IsHexOf(expected.verifyingContract, 40)
    case WrongDeployment => Lower(a.verifyingContract) != Lower(expected.verifyingContract)
    case WrongChannel => Lower(a.state.channelId) != Lower(expected.channelId)
    case WrongStateType => a.state.stateType != expected.stateType
    case WrongEpoch => BigInt(a.state.stateEpoch) != expected.stateEpoch
    case StaleNonce => BigInt(a.state.nonce) <= expected.minimumNonceExclusive
    case WrongTotal => BigInt(a.state.balanceA) + BigInt(a.state.balanceB) != expected.totalDeposit
    case _ => false
  }

  /** The comparisons up to the signatures, on the artifact as it is given. */
  lemma StateIsCompared(a: Artifact, expected: Expected, lib: Library)
    requires SchemaValid(a)
    ensures var r := Validate(a, expected, lib);
            if Agrees(a, expected) then
              r == VerifySlots(Normalize(a, lib).signatures, expected, TypedDataOf(Normalize(a, lib), lib), lib)
            else r.Err? && StateRefused(a, expected, r.error)
  {
    NormalFormIsStable(a, lib);
    SameIntText(a.chainId, expected.chainId);
    if IsHexOf(expected.verifyingContract, 40) {
      SameChecksum(a.verifyingContract, expected.verifyingContract, lib);
    }
  }

  /** A refusal names something that is indeed wrong: with the state, or else with a signature on it. */
  lemma RefusalsAreTrue(a: Artifact, expected: Expected, lib: Library)
    requires SchemaValid(a) && Validate(a, expected, lib).Err?
    ensures var reason := Validate(a, expected, lib).error;
            if Agrees(a, expected) then SlotsRefused(a.signatures, expected, SignedData(a, lib), lib, reason)
            else StateRefused(a, expected, reason)
  {
    StateIsCompared(a, expected, lib);
    NormalFormIsSameState(a, lib);
    TypedDataNamesFields(a, lib);
    SlotRefusalsAreTrue(a.signatures, expected, SignedData(a, lib), lib);
  }

  // ---------------------------------------------------------------- attaching signatures

  predicate IsParty(signer: string, party: string) {
    IsHexOf(signer, 40) && IsHexOf(party, 40) && Lower(signer) == Lower(party)
  }

  /** The artifact with the signer's slot filled; party A wins when both parties are the same account. */
  function WithSignature(a: Artifact, signer: string, signedValue: string, expected: Expected): Artifact {
    a.(signatures := if IsParty(signer, expected.partyA) then a.signatures.(partyA := Some(signedValue))
                     else a.signatures.(partyB := Some(signedValue)))
  }

  /** Attaching succeeds exactly for a valid artifact, a party, and that party's signature on the state. */
  lemma AttachesExactly(a: Artifact, signer: string, signedValue: string, expected: Expected, lib: Library)
    ensures Attach(a, signer, signedValue, expected, lib).Ok? <==>
            && Validate(a, expected, lib).Ok? && SchemaValid(a)
            && IsHexOf(expected.partyA, 40) && IsHexOf(expected.partyB, 40)
            && (IsParty(signer, expected.partyA) || IsParty(signer, expected.partyB))
            && lib.verifier(lib.checksum(signer), signedValue, SignedData(a, lib))
    ensures Attach(a, signer, signedValue, expected, lib).Ok? ==>
              Attach(a, signer, signedValue, expected, lib).value == WithSignature(a, signer, signedValue, expected)
  {
    if SchemaValid(a) {
      TypedDataNamesFields(a, lib);
    }
    if IsHexOf(signer, 40) && IsHexOf(expected.partyA, 40) && IsHexOf(expected.partyB, 40) {
      SameChecksum(signer, expected.partyA, lib);
      SameChecksum(signer, expected.partyB, lib);
    }
  }

  /**
   * A successful attach keeps the state and the other slot. The result validates against the same expectation exactly
   * when the signature fits the schema, and then its signers are the old ones and the new one.
   */
  lemma AttachKeepsValidity(a: Artifact, signer: string, signedValue: string, expected: Expected, lib: Library)
    requires Attach(a, signer, signedValue, expected, lib).Ok?
    ensures var b := Attach(a, signer, signedValue, expected, lib).value;
            var asA := IsParty(signer, expected.partyA);
            && b.state == a.state && b.chainId == a.chainId && b.verifyingContract == a.verifyingContract
            && (asA ==> b.signatures == Signatures(Some(signedValue), a.signatures.partyB))
            && (!asA ==> b.signatures == Signatures(a.signatures.partyA, Some(signedValue)))
            && (Validate(b, expected, lib).Ok? <==> IsSignature(signedValue))
            && (IsSignature(signedValue) ==>
                  var old', new' := Validate(a, expected, lib), Validate(b, expected, lib);
                  && old'.Ok?
                  && (asA ==> new' == Ok(Signers(Some(lib.checksum(signer)), old'.value.partyB)))
                  && (!asA ==> new' == Ok(Signers(old'.value.partyA, Some(lib.checksum(signer))))))
  {
    var b := Attach(a, signer, signedValue, expected, lib).value;
    AttachesExactly(a, signer, signedValue, expected, lib);
    ValidatesExactly(a, expected, lib);
    ValidatesExactly(b, expected, lib);
    SignerIsParty(signer, expected, lib);
    if SchemaValid(b) {
      TypedDataIsTheState(a, b, lib);
    }
  }

  lemma SignerIsParty(signer: string, expected: Expected, lib: Library)
    ensures IsParty(signer, expected.partyA) ==> lib.checksum(signer) == lib.checksum(expected.partyA)
    ensures IsParty(signer, expected.partyB) ==> lib.checksum(signer) == lib.checksum(expected.partyB)
  {
  }

  predicate DistinctParties(expected: Expected) {
    IsHexOf(expected.partyA, 40) && IsHexOf(expected.partyB, 40) && Lower(expected.partyA) != Lower(expected.partyB)
  }

  function AttachBoth(
    a: Artifact, first: string, firstValue: string, second: string, secondValue: string, expected: Expected, lib: Library)
    : Result<Artifact, ChannelError>
  {
    match Attach(a, first, firstValue, expected, lib)
    case Err(e) => Err(e)
    case Ok(b) => Attach(b, second, secondValue, expected, lib)
  }

  /** What it takes to attach both signatures, in either order. */
  lemma BothAttach(
    a: Artifact, first: string, firstValue: string, second: string, secondValue: string, expected: Expected, lib: Library)
    requires IsSignature(firstValue)
    ensures AttachBoth(a, first, firstValue, second, secondValue, expected, lib).Ok? <==>
            && Attach(a, first, firstValue, expected, lib).Ok? && Attach(a, second, secondValue, expected, lib).Ok?
    ensures AttachBoth(a, first, firstValue, second, secondValue, expected, lib).Ok? ==>
              AttachBoth(a, first, firstValue, second, secondValue, expected, lib).value
              == WithSignature(WithSignature(a, first, firstValue, expected), second, secondValue, expected)
  {
    AttachesExactly(a, first, firstValue, expected, lib);
    AttachesExactly(a, second, secondValue, expected, lib);
    if Attach(a, first, firstValue, expected, lib).Ok? {
      var b := Attach(a, first, firstValue, expected, lib).value;
      AttachKeepsValidity(a, first, firstValue, expected, lib);
      ValidatesExactly(a, expected, lib);
      ValidatesExactly(b, expected, lib);
      AttachesExactly(b, second, secondValue, expected, lib);
      TypedDataIsTheState(a, b, lib);
    }
  }

  /** The order in which two distinct parties attach schema-valid signatures does not matter. */
  lemma AttachesCommute(a: Artifact, valueA: string, valueB: string, expected: Expected, lib: Library)
    requires DistinctParties(expected) && IsSignature(valueA) && IsSignature(valueB)
    ensures var ab := AttachBoth(a, expected.partyA, valueA, expected.partyB, valueB, expected, lib);
            var ba := AttachBoth(a, expected.partyB, valueB, expected.partyA, valueA, expected, lib);
            (ab.Ok? <==> ba.Ok?) && (ab.Ok? ==> ab == ba)
  {
    BothAttach(a, expected.partyA, valueA, expected.partyB, valueB, expected, lib);
    BothAttach(a, expected.partyB, valueB, expected.partyA, valueA, expected, lib);
  }

  // ---------------------------------------------------------------- the whole exchange

  /** Party A creates, signs and serializes a state; party B parses the text and signs. `None` is any error on the way. */
  function Exchange(input: CreateInput, valueA: string, valueB: string, expected: Expected, lib: Library): Option<Artifact> {
    match Create(input, lib)
    case Err(_) => None
    case Ok(created) =>
      match Attach(created, expected.partyA, valueA, expected, lib)
      case Err(_) => None
      case Ok(signed) =>
        match Serialize(signed, lib)
        case Err(_) => None
        case Ok(text) =>
          match ParseArtifact(text, lib)
          case Err(_) => None
          case Ok(received) =>
            match Attach(received, expected.partyB, valueB, expected, lib)
            case Err(_) => None
            case Ok(countersigned) => Some(countersigned)
  }

  /** The state described by `input` is the expected one. */
  predicate InputAgrees(input: CreateInput, expected: Expected) {
    && input.chainId == expected.chainId
    && IsHexOf(expected.verifyingContract, 40) && Lower(input.verifyingContract) == Lower(expected.verifyingContract)
    && Lower(input.channelId) == Lower(expected.channelId)
    && input.stateType == expected.stateType && input.stateEpoch == expected.stateEpoch
    && input.nonce > expected.minimumNonceExclusive
    && input.balanceA + input.balanceB == expected.totalDeposit
  }

  /** Both parties hold genuine signatures on the numbers the state is created from. */
  ghost predicate BothSigned(input: CreateInput, valueA: string, valueB: string, expected: Expected, lib: Library)
    requires Create(input, lib).Ok?
  {
    CreatesExactly(input, lib);
    var data := InputData(input, lib);
    && lib.verifier(lib.checksum(expected.partyA), valueA, data)
    && lib.verifier(lib.checksum(expected.partyB), valueB, data)
  }

  lemma CreatedAgrees(input: CreateInput, expected: Expected, lib: Library)
    requires Create(input, lib).Ok? && InputAgrees(input, expected)
    ensures var a := Create(input, lib).value;
            && SchemaValid(a) && Agrees(a, expected) && Validate(a, expected, lib) == Ok(Signers(None, None))
  {
    CreatesExactly(input, lib);
    ValidatesExactly(Create(input, lib).value, expected, lib);
  }

  /** Party A's half: a created and signed artifact. */
  lemma FirstHalf(input: CreateInput, valueA: string, expected: Expected, lib: Library) returns (signed: Artifact)
    requires Create(input, lib).Ok? && InputAgrees(input, expected) && DistinctParties(expected) && IsSignature(valueA)
    requires SchemaValid(Create(input, lib).value)
    requires lib.verifier(lib.checksum(expected.partyA), valueA, TypedDataOf(Create(input, lib).value, lib))
    ensures Attach(Create(input, lib).value, expected.partyA, valueA, expected, lib) == Ok(signed)
    ensures signed == Create(input, lib).value.(signatures := Signatures(Some(valueA), None))
    ensures SchemaValid(signed) && Validate(signed, expected, lib).Ok?
    ensures TypedDataOf(signed, lib) == TypedDataOf(Create(input, lib).value, lib)
  {
    var created := Create(input, lib).value;
    CreatesExactly(input, lib);
    CreatedAgrees(input, expected, lib);
    AttachesExactly(created, expected.partyA, valueA, expected, lib);
    signed := WithSignature(created, expected.partyA, valueA, expected);
    AttachKeepsValidity(created, expected.partyA, valueA, expected, lib);
    ValidatesExactly(signed, expected, lib);
    TypedDataIsTheState(created, signed, lib);
  }

  /** Party B's half, on the normal form of what party A signed. */
  lemma SecondHalf(signed: Artifact, valueB: string, expected: Expected, lib: Library) returns (done: Artifact)
    requires SchemaValid(signed) && Validate(signed, expected, lib).Ok? && signed.signatures.partyA.Some?
    requires DistinctParties(expected) && IsSignature(valueB)
    requires lib.verifier(lib.checksum(expected.partyB), valueB, TypedDataOf(signed, lib))
    ensures Attach(Normalize(signed, lib), expected.partyB, valueB, expected, lib) == Ok(done)
    ensures SchemaValid(done) && done == Normalize(signed, lib).(signatures := done.signatures)
    ensures done.signatures == Signatures(Some(Lower(signed.signatures.partyA.value)), Some(valueB))
    ensures Validate(done, expected, lib)
         == Ok(Signers(Some(lib.checksum(expected.partyA)), Some(lib.checksum(expected.partyB))))
  {
    var received := Normalize(signed, lib);
    NormalFormIsSameState(signed, lib);
    NormalFormIsStable(signed, lib);
    assert Validate(received, expected, lib) == Validate(signed, expected, lib);
    AttachesExactly(received, expected.partyB, valueB, expected, lib);
    done := WithSignature(received, expected.partyB, valueB, expected);
    AttachKeepsValidity(received, expected.partyB, valueB, expected, lib);
    ValidatesExactly(received, expected, lib);
    ValidatesExactly(done, expected, lib);
  }

  /**
   * Create, sign, serialize, parse, countersign: with a creatable state that agrees with the chain, genuine signatures
   * and a text that fits, every step succeeds and the result is signed by both parties on a split of the whole escrow.
   */
  lemma ExchangeEndsDoublySigned(input: CreateInput, valueA: string, valueB: string, expected: Expected, lib: Library)
    requires Create(input, lib).Ok? && InputAgrees(input, expected) && DistinctParties(expected)
    requires IsSignature(valueA) && IsSignature(valueB) && BothSigned(input, valueA, valueB, expected, lib)
    requires TextSize(Create(input, lib).value.(signatures := Signatures(Some(valueA), None))) <= MAX_BYTES
    ensures input.chainId > 0 && input.balanceA >= 0 && input.balanceB >= 0 && input.nonce > 0 && input.stateEpoch >= 0
    ensures var done := Exchange(input, valueA, valueB, expected, lib);
            && done.Some? && SchemaValid(done.value)
            && Validate(done.value, expected, lib)
               == Ok(Signers(Some(lib.checksum(expected.partyA)), Some(lib.checksum(expected.partyB))))
            && SignedData(done.value, lib) == InputData(input, lib)
            && BigInt(done.value.state.balanceA) + BigInt(done.value.state.balanceB) == expected.totalDeposit
  {
    CreatesExactly(input, lib);
    CreatedDataIsTheInput(input, lib);
    var signed := FirstHalf(input, valueA, expected, lib);
    SerializeRoundTrips(signed, lib);
    var done := SecondHalf(signed, valueB, expected, lib);
    assert Exchange(input, valueA, valueB, expected, lib) == Some(done);
    NormalFormIsSameState(signed, lib);
    SameSignedData(done, Normalize(signed, lib), lib);
    SameSignedData(Normalize(signed, lib), signed, lib);
    SameSignedData(signed, Create(input, lib).value, lib);
    TypedDataNamesFields(Create(input, lib).value, lib);
  }
}
