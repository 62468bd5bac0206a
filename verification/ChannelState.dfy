/** Channel-state artifacts and their two-party signing (src/lib/channel-state.ts). */
module ChannelState {
  import opened Wrappers
  import opened Text
  import opened Json
  import JsonGrammar

  const FORMAT: string := "noblepay-channel-state-v2"
  const MAX_BYTES: nat := 16384
  const MAX_SIGNATURE_BYTES: nat := 4096

  datatype StateType = Close | State

  datatype StateFields = StateFields(
    channelId: string, balanceA: string, balanceB: string, nonce: string, stateEpoch: string, stateType: StateType)

  datatype Signatures = Signatures(partyA: Option<string>, partyB: Option<string>)

  /** `ChannelStateArtifact`; `format` is the same in every value of the type. */
  datatype Artifact = Artifact(chainId: string, verifyingContract: string, state: StateFields, signatures: Signatures)

  datatype ChannelError =
    | ChainIdNotPositive | NegativeBalance | NonceNotPositive
    | NothingPasted | TooLarge | NotJson | SchemaMismatch
    | InvalidAddress | WrongChain | WrongDeployment | WrongChannel | WrongStateType | WrongEpoch | StaleNonce | WrongTotal
    | BadSignatureA | BadSignatureB | BadWalletSignature | NotAParty

  // ---------------------------------------------------------------- library functions

  /** EIP-55: only the case of letters changes, and the result does not depend on the case of the input. */
  ghost predicate IsChecksum(f: string -> string) {
    && (forall s :: IsHexOf(s, 40) ==> IsHexOf(f(s), 40) && Lower(f(s)) == Lower(s))
    && (forall s, t :: IsHexOf(s, 40) && IsHexOf(t, 40) && Lower(s) == Lower(t) ==> f(s) == f(t))
  }

  lemma LowerIsHex(s: string, digits: nat)
    requires IsHexOf(s, digits)
    ensures IsHexOf(Lower(s), digits)
  {
  }

  function AnyChecksum(): (f: string -> string)
    ensures IsChecksum(f)
  {
    assert forall s :: IsHexOf(s, 40) ==> IsHexOf(Lower(s), 40) && Lower(Lower(s)) == Lower(s) by {
      forall s | IsHexOf(s, 40)
        ensures IsHexOf(Lower(s), 40) && Lower(Lower(s)) == Lower(s)
      {
        LowerIsHex(s, 40);
      }
    }
    Lower
  }

  type Checksum = f: string -> string | IsChecksum(f) witness AnyChecksum()

  /** What the wallet signs; the domain name, version and types are constants. */
  datatype TypedData = TypedData(
    chainId: nat, verifyingContract: string,
    channelId: string, balanceA: nat, balanceB: nat, nonce: nat, stateEpoch: nat, stateType: string)

  type RawVerifier = (string, string, TypedData) -> bool

  /** Signatures are bytes: the case of their hexadecimal digits does not matter. */
  ghost predicate IsCaseBlind(v: RawVerifier) {
    forall address, signature, data :: v(address, signature, data) == v(address, Lower(signature), data)
  }

  type Verifier = v: RawVerifier | IsCaseBlind(v) witness (_, _, _) => false

  datatype Library = Library(checksum: Checksum, keccak: string -> string, verifier: Verifier)

  // ---------------------------------------------------------------- schema and normal form

  predicate IsSignature(s: string) {
    |s| >= 4 && |s| % 2 == 0 && IsHexOf(s, |s| - 2) && (|s| - 2) / 2 <= MAX_SIGNATURE_BYTES
  }

  predicate IsSignatureOrNull(s: Option<string>) {
    s.Some? ==> IsSignature(s.value)
  }

  /** `ChannelStateArtifactSchema` on a value that has the right shape. */
  predicate SchemaValid(a: Artifact) {
    && IsCanonical(a.chainId) && BigInt(a.chainId) > 0
    && IsHexOf(a.verifyingContract, 40)
    && IsHexOf(a.state.channelId, 64)
    && IsCanonical(a.state.balanceA) && IsCanonical(a.state.balanceB)
    && IsCanonical(a.state.nonce) && IsCanonical(a.state.stateEpoch)
    && IsSignatureOrNull(a.signatures.partyA) && IsSignatureOrNull(a.signatures.partyB)
  }

  function LowerOrNull(s: Option<string>): Option<string> {
    if s.Some? then Some(Lower(s.value)) else None
  }

  /** `normalizeArtifact`. */
  function Normalize(a: Artifact, lib: Library): Artifact {
    Artifact(
      a.chainId,
      lib.checksum(a.verifyingContract),
      a.state.(channelId := Lower(a.state.channelId)),
      Signatures(LowerOrNull(a.signatures.partyA), LowerOrNull(a.signatures.partyB)))
  }

  lemma LowerIsSignature(s: Option<string>)
    ensures IsSignatureOrNull(s) ==> IsSignatureOrNull(LowerOrNull(s))
    ensures LowerOrNull(LowerOrNull(s)) == LowerOrNull(s)
  {
    if s.Some? {
      LowerIdempotent(s.value);
      if IsSignature(s.value) {
        LowerIsHex(s.value, |s.value| - 2);
      }
    }
  }

  /** Normal forms are valid and stay as they are. */
  lemma NormalFormIsStable(a: Artifact, lib: Library)
    requires SchemaValid(a)
    ensures SchemaValid(Normalize(a, lib)) && Normalize(Normalize(a, lib), lib) == Normalize(a, lib)
  {
    LowerIsHex(a.state.channelId, 64);
    LowerIsSignature(a.signatures.partyA);
    LowerIsSignature(a.signatures.partyB);
    LowerIdempotent(a.state.channelId);
    assert Lower(lib.checksum(a.verifyingContract)) == Lower(a.verifyingContract);
  }

  // ---------------------------------------------------------------- creation

  datatype CreateInput = CreateInput(
    chainId: int, verifyingContract: string, channelId: string, balanceA: int, balanceB: int, nonce: int, stateEpoch: int,
    stateType: StateType)

  /** `n.toString()`. */
  function IntText(n: int): string {
    if n < 0 then "-" + Digits(-n) else Digits(n)
  }

  /** `createChannelStateArtifact`. */
  function Create(input: CreateInput, lib: Library): Result<Artifact, ChannelError> {
    if input.chainId <= 0 then Err(ChainIdNotPositive)
    else if input.balanceA < 0 || input.balanceB < 0 then Err(NegativeBalance)
    else if input.nonce <= 0 then Err(NonceNotPositive)
    else
      var a := Artifact(
        IntText(input.chainId), input.verifyingContract,
        StateFields(input.channelId, IntText(input.balanceA), IntText(input.balanceB), IntText(input.nonce),
                    IntText(input.stateEpoch), input.stateType),
        Signatures(None, None));
      if SchemaValid(a) then Ok(Normalize(a, lib)) else Err(SchemaMismatch)
  }

  lemma IntTextIsCanonical(n: int)
    ensures IsCanonical(IntText(n)) <==> n >= 0
    ensures n >= 0 ==> BigInt(IntText(n)) == n
  {
    if n >= 0 {
      ValueOfDigits(n);
    } else {
      assert IntText(n)[0] == '-';
    }
  }

  /** A state can be created exactly from a positive chain id and nonce, unsigned amounts and epoch, and well-formed hex. */
  lemma CreatesExactly(input: CreateInput, lib: Library)
    ensures Create(input, lib).Ok? <==>
            && input.chainId > 0 && input.balanceA >= 0 && input.balanceB >= 0 && input.nonce > 0 && input.stateEpoch >= 0
            && IsHexOf(input.verifyingContract, 40) && IsHexOf(input.channelId, 64)
    ensures Create(input, lib).Ok? ==>
              var a := Create(input, lib).value;
              && SchemaValid(a) && Normalize(a, lib) == a
              && BigInt(a.chainId) == input.chainId && Lower(a.verifyingContract) == Lower(input.verifyingContract)
              && Lower(a.state.channelId) == Lower(input.channelId)
              && BigInt(a.state.balanceA) == input.balanceA && BigInt(a.state.balanceB) == input.balanceB
              && BigInt(a.state.nonce) == input.nonce && BigInt(a.state.stateEpoch) == input.stateEpoch
              && a.state.stateType == input.stateType && a.signatures == Signatures(None, None)
  {
    IntTextIsCanonical(input.chainId);
    IntTextIsCanonical(input.balanceA);
    IntTextIsCanonical(input.balanceB);
    IntTextIsCanonical(input.nonce);
    IntTextIsCanonical(input.stateEpoch);
    if Create(input, lib).Ok? {
      var a := Artifact(
        IntText(input.chainId), input.verifyingContract,
        StateFields(input.channelId, IntText(input.balanceA), IntText(input.balanceB), IntText(input.nonce),
                    IntText(input.stateEpoch), input.stateType),
        Signatures(None, None));
      NormalFormIsStable(a, lib);
    }
  }

  /** What is refused at creation, and for which reason: the first that applies. */
  lemma RefusesExactly(input: CreateInput, lib: Library)
    ensures var r := Create(input, lib);
            && (r == Err(ChainIdNotPositive) <==> input.chainId <= 0)
            && (r == Err(NegativeBalance) <==> input.chainId > 0 && (input.balanceA < 0 || input.balanceB < 0))
            && (r == Err(NonceNotPositive) <==>
                  input.chainId > 0 && input.balanceA >= 0 && input.balanceB >= 0 && input.nonce <= 0)
            && (r == Err(SchemaMismatch) <==>
                  && input.chainId > 0 && input.balanceA >= 0 && input.balanceB >= 0 && input.nonce > 0
                  && !(input.stateEpoch >= 0 && IsHexOf(input.verifyingContract, 40) && IsHexOf(input.channelId, 64)))
  {
    CreatesExactly(input, lib);
  }

  // ---------------------------------------------------------------- printing and parsing

  function StateTypeText(t: StateType): string {
    if t.Close? then "CLOSE" else "STATE"
  }

  function StateJson(s: StateFields): seq<Field> {
    [
      Field("channelId", Str(s.channelId)),
      Field("balanceA", Str(s.balanceA)),
      Field("balanceB", Str(s.balanceB)),
      Field("nonce", Str(s.nonce)),
      Field("stateEpoch", Str(s.stateEpoch)),
      Field("stateType", Str(StateTypeText(s.stateType)))
    ]
  }

  function SignaturesJson(s: Signatures): seq<Field> {
    [Field("partyA", OrNull(s.partyA)), Field("partyB", OrNull(s.partyB))]
  }

  function ArtifactJson(a: Artifact): seq<Field> {
    [
      Field("format", Str(FORMAT)),
      Field("chainId", Str(a.chainId)),
      Field("verifyingContract", Str(a.verifyingContract)),
      Field("state", Object(StateJson(a.state))),
      Field("signatures", Object(SignaturesJson(a.signatures)))
    ]
  }

  function ToJson(a: Artifact): (v: Value)
    ensures Printable(v)
  {
    Object(ArtifactJson(a))
  }

  /** `serializeChannelStateArtifact`. */
  function Serialize(a: Artifact, lib: Library): Result<string, ChannelError> {
    if SchemaValid(a) then Ok(Print(ToJson(Normalize(a, lib)), Indented)) else Err(SchemaMismatch)
  }

  predicate OnlyKeys(fields: seq<Field>, keys: set<string>) {
    forall i :: 0 <= i < |fields| ==> fields[i].key in keys
  }

  function LookupObject(fields: seq<Field>, key: string, keys: set<string>): Option<seq<Field>> {
    match Lookup(fields, key)
    case Some(Object(inner)) => if OnlyKeys(inner, keys) then Some(inner) else None
    case _ => None
  }

  /** A nullable but required string property. */
  function LookupNullable(fields: seq<Field>, key: string): Option<Option<string>> {
    match Lookup(fields, key)
    case Some(Str(s)) => Some(Some(s))
    case Some(Null) => Some(None)
    case _ => None
  }

  function ReadStateType(s: string): Option<StateType> {
    if s == "CLOSE" then Some(Close) else if s == "STATE" then Some(State) else None
  }

  function ReadState(fields: seq<Field>): Option<StateFields> {
    match (LookupText(fields, "channelId"), LookupText(fields, "balanceA"), LookupText(fields, "balanceB"),
           LookupText(fields, "nonce"), LookupText(fields, "stateEpoch"), LookupText(fields, "stateType"))
    case (Some(channelId), Some(balanceA), Some(balanceB), Some(nonce), Some(stateEpoch), Some(stateType)) =>
      (match ReadStateType(stateType)
       case Some(t) => Some(StateFields(channelId, balanceA, balanceB, nonce, stateEpoch, t))
       case None => None)
    case _ => None
  }

  function ReadSignatures(fields: seq<Field>): Option<Signatures> {
    match (LookupNullable(fields, "partyA"), LookupNullable(fields, "partyB"))
    case (Some(a), Some(b)) => Some(Signatures(a, b))
    case _ => None
  }

  const STATE_KEYS: set<string> := {"channelId", "balanceA", "balanceB", "nonce", "stateEpoch", "stateType"}
  const SIGNATURE_KEYS: set<string> := {"partyA", "partyB"}
  const ARTIFACT_KEYS: set<string> := {"format", "chainId", "verifyingContract", "state", "signatures"}

  /** The properties of an artifact besides its format. */
  function ReadArtifact(fields: seq<Field>): Option<Artifact> {
    match (LookupText(fields, "chainId"), LookupText(fields, "verifyingContract"),
           LookupObject(fields, "state", STATE_KEYS), LookupObject(fields, "signatures", SIGNATURE_KEYS))
    case (Some(chainId), Some(verifyingContract), Some(stateFields), Some(signatureFields)) =>
      (match (ReadState(stateFields), ReadSignatures(signatureFields))
       case (Some(state), Some(signatures)) => Some(Artifact(chainId, verifyingContract, state, signatures))
       case _ => None)
    case _ => None
  }

  /** `ChannelStateArtifactSchema` on any JSON value: strict objects with exactly the expected properties. */
  function FromJson(v: Value): Option<Artifact> {
    if !v.Object? || !OnlyKeys(v.fields, ARTIFACT_KEYS) || LookupText(v.fields, "format") != Some(FORMAT) then None
    else
      match ReadArtifact(v.fields)
      case Some(a) => if SchemaValid(a) then Some(a) else None
      case None => None
  }

  /** White space and line terminators, as `trim` removes them. */
  predicate IsSpace(c: char) {
    var n := c as int;
    || 9 <= n <= 13 || n == 0x20 || n == 0xA0 || n == 0x1680 || 0x2000 <= n <= 0x200A
    || n == 0x2028 || n == 0x2029 || n == 0x202F || n == 0x205F || n == 0x3000 || n == 0xFEFF
  }

  /** ECMAScript's white space and line terminators, by code point. */
  lemma SpaceIs(c: char)
    ensures IsSpace(c) <==>
              || c as int in {9, 10, 11, 12, 13, 32, 160, 5760, 8232, 8233, 8239, 8287, 12288, 65279}
              || 8192 <= c as int <= 8202
  {
  }

  predicate IsBlank(s: string) {
    forall i :: 0 <= i < |s| ==> IsSpace(s[i])
  }

  /** `parseChannelStateArtifact`. */
  function ParseArtifact(serialized: string, lib: Library): Result<Artifact, ChannelError> {
    if IsBlank(serialized) then Err(NothingPasted)
    else if Utf8Length(serialized) > MAX_BYTES then Err(TooLarge)
    else
      match Parse(serialized)
      case None => Err(NotJson)
      case Some(v) =>
        match FromJson(v)
        case None => Err(SchemaMismatch)
        case Some(a) => Ok(Normalize(a, lib))
  }

  lemma StateIsRead(s: StateFields)
    ensures OnlyKeys(StateJson(s), STATE_KEYS) && ReadState(StateJson(s)) == Some(s)
  {
    var f := StateJson(s);
    assert "channelId"[0] == 'c' && "stateType"[0] == 's' && "balanceA"[7] == 'A' && "balanceB"[7] == 'B';
    LookupAt(f, 0);
    LookupAt(f, 1);
    LookupAt(f, 2);
    LookupAt(f, 3);
    LookupAt(f, 4);
    LookupAt(f, 5);
    assert "CLOSE"[0] == 'C' && "STATE"[0] == 'S';
  }

  lemma SignaturesAreRead(s: Signatures)
    ensures OnlyKeys(SignaturesJson(s), SIGNATURE_KEYS) && ReadSignatures(SignaturesJson(s)) == Some(s)
  {
  }

  lemma PartsAreRead(a: Artifact)
    ensures var f := ArtifactJson(a);
            && OnlyKeys(f, ARTIFACT_KEYS) && LookupText(f, "format") == Some(FORMAT)
            && LookupText(f, "chainId") == Some(a.chainId) && LookupText(f, "verifyingContract") == Some(a.verifyingContract)
            && Lookup(f, "state") == Some(Object(StateJson(a.state)))
            && Lookup(f, "signatures") == Some(Object(SignaturesJson(a.signatures)))
  {
    var f := ArtifactJson(a);
    LookupAt(f, 0);
    LookupAt(f, 1);
    LookupAt(f, 2);
    LookupAt(f, 3);
    LookupAt(f, 4);
  }

  /** The schema reads a valid artifact back from its JSON value. */
  lemma ArtifactIsRead(a: Artifact)
    requires SchemaValid(a)
    ensures FromJson(ToJson(a)) == Some(a)
  {
    PartsAreRead(a);
    StateIsRead(a.state);
    SignaturesAreRead(a.signatures);
  }

  // ---------------------------------------------------------------- what is accepted

  /** The decimal text of `n`. */
  ghost predicate IsDecimal(s: string, n: nat) {
    s == Digits(n)
  }

  lemma CanonicalIsDigits(s: string)
    ensures IsCanonical(s) <==> exists n :: IsDecimal(s, n)
  {
    if IsCanonical(s) {
      DigitsOfValue(s);
      assert IsDecimal(s, BigInt(s));
    } else if n :| IsDecimal(s, n) {
      ValueOfDigits(n);
    }
  }

  /** A `0x`-prefixed text of `n` bytes, two digits each. */
  ghost predicate IsBytes(s: string, n: nat) {
    IsHexOf(s, 2 * n)
  }

  lemma SignatureIsBytes(s: string)
    ensures IsSignature(s) <==> exists n :: 1 <= n <= 4096 && IsBytes(s, n)
  {
    if IsSignature(s) {
      assert IsBytes(s, (|s| - 2) / 2);
    }
  }

  lemma PositiveIsDigits(s: string)
    ensures IsCanonical(s) && BigInt(s) > 0 <==> exists n :: n > 0 && IsDecimal(s, n)
  {
    if IsCanonical(s) {
      DigitsOfValue(s);
      assert IsDecimal(s, BigInt(s));
    }
    if n :| n > 0 && IsDecimal(s, n) {
      ValueOfDigits(n);
    }
  }

  /** The values the schema allows: an address, a 32-byte channel id, decimal numbers, and signatures of 1 to 4,096 bytes. */
  ghost predicate Allowed(a: Artifact) {
    && (exists n :: n > 0 && IsDecimal(a.chainId, n)) && IsHexOf(a.verifyingContract, 40) && IsHexOf(a.state.channelId, 64)
    && (exists n :: IsDecimal(a.state.balanceA, n)) && (exists n :: IsDecimal(a.state.balanceB, n))
    && (exists n :: IsDecimal(a.state.nonce, n)) && (exists n :: IsDecimal(a.state.stateEpoch, n))
    && (a.signatures.partyA.Some? ==> exists n :: 1 <= n <= 4096 && IsBytes(a.signatures.partyA.value, n))
    && (a.signatures.partyB.Some? ==> exists n :: 1 <= n <= 4096 && IsBytes(a.signatures.partyB.value, n))
  }

  lemma SchemaAllows(a: Artifact)
    ensures SchemaValid(a) <==> Allowed(a)
  {
    PositiveIsDigits(a.chainId);
    CanonicalIsDigits(a.state.balanceA);
    CanonicalIsDigits(a.state.balanceB);
    CanonicalIsDigits(a.state.nonce);
    CanonicalIsDigits(a.state.stateEpoch);
    if a.signatures.partyA.Some? {
      SignatureIsBytes(a.signatures.partyA.value);
    }
    if a.signatures.partyB.Some? {
      SignatureIsBytes(a.signatures.partyB.value);
    }
  }

  /** The object `f` is this state and nothing else. */
  ghost predicate StateSays(f: seq<Field>, s: StateFields) {
    && (forall i :: 0 <= i < |f| ==> f[i].key in {"channelId", "balanceA", "balanceB", "nonce", "stateEpoch", "stateType"})
    && Lookup(f, "channelId") == Some(Str(s.channelId))
    && Lookup(f, "balanceA") == Some(Str(s.balanceA)) && Lookup(f, "balanceB") == Some(Str(s.balanceB))
    && Lookup(f, "nonce") == Some(Str(s.nonce)) && Lookup(f, "stateEpoch") == Some(Str(s.stateEpoch))
    && Lookup(f, "stateType") == Some(Str(match s.stateType case Close => "CLOSE" case State => "STATE"))
  }

  /** The object `f` is these signatures and nothing else; a missing one is written as null, not left out. */
  ghost predicate SignaturesSay(f: seq<Field>, s: Signatures) {
    && (forall i :: 0 <= i < |f| ==> f[i].key in {"partyA", "partyB"})
    && Lookup(f, "partyA") == Some(match s.partyA case Some(x) => Str(x) case None => Null)
    && Lookup(f, "partyB") == Some(match s.partyB case Some(x) => Str(x) case None => Null)
  }

  /** The JSON value is this artifact of the second format, with no further property anywhere. */
  ghost predicate Says(v: Value, a: Artifact) {
    && v.Object?
    && (forall i :: 0 <= i < |v.fields| ==> v.fields[i].key in {"format", "chainId", "verifyingContract", "state", "signatures"})
    && Lookup(v.fields, "format") == Some(Str("noblepay-channel-state-v2"))
    && Lookup(v.fields, "chainId") == Some(Str(a.chainId))
    && Lookup(v.fields, "verifyingContract") == Some(Str(a.verifyingContract))
    && (exists f :: Lookup(v.fields, "state") == Some(Object(f)) && StateSays(f, a.state))
    && (exists f :: Lookup(v.fields, "signatures") == Some(Object(f)) && SignaturesSay(f, a.signatures))
  }

  lemma ReadsState(f: seq<Field>, s: StateFields)
    ensures OnlyKeys(f, STATE_KEYS) && ReadState(f) == Some(s) <==> StateSays(f, s)
  {
    assert "CLOSE"[0] == 'C' && "STATE"[0] == 'S';
  }

  lemma ReadsSignatures(f: seq<Field>, s: Signatures)
    ensures OnlyKeys(f, SIGNATURE_KEYS) && ReadSignatures(f) == Some(s) <==> SignaturesSay(f, s)
  {
  }

  lemma ReadsArtifact(f: seq<Field>, a: Artifact)
    ensures ReadArtifact(f) == Some(a) <==>
            && Lookup(f, "chainId") == Some(Str(a.chainId)) && Lookup(f, "verifyingContract") == Some(Str(a.verifyingContract))
            && (exists g :: Lookup(f, "state") == Some(Object(g)) && StateSays(g, a.state))
            && (exists g :: Lookup(f, "signatures") == Some(Object(g)) && SignaturesSay(g, a.signatures))
  {
    match Lookup(f, "state") {
      case Some(Object(g)) => ReadsState(g, a.state);
      case _ =>
    }
    match Lookup(f, "signatures") {
      case Some(Object(g)) => ReadsSignatures(g, a.signatures);
      case _ =>
    }
  }

  lemma SaysIsRead(v: Value, a: Artifact)
    ensures FromJson(v) == Some(a) <==> Says(v, a) && SchemaValid(a)
  {
    if v.Object? {
      ReadsArtifact(v.fields, a);
      assert OnlyKeys(v.fields, ARTIFACT_KEYS) <==>
             forall i :: 0 <= i < |v.fields| ==>
               v.fields[i].key in {"format", "chainId", "verifyingContract", "state", "signatures"};
    }
  }

  /** Acceptance, on any JSON value: exactly the objects of the right format and properties with allowed values, read as they say. */
  lemma AcceptsExactly(v: Value, a: Artifact)
    ensures FromJson(v) == Some(a) <==> Says(v, a) && Allowed(a)
  {
    SaysIsRead(v, a);
    SchemaAllows(a);
  }

  predicate Fits(serialized: string) {
    !IsBlank(serialized) && Utf8Length(serialized) <= 16384
  }

  /** The text is JSON, by the grammar. */
  ghost predicate SaysSomething(serialized: string) {
    exists v :: JsonGrammar.IsJson(serialized, v)
  }

  /** The text is JSON of this artifact, and its values are allowed. */
  ghost predicate SaysAllowed(serialized: string, a: Artifact) {
    Allowed(a) && exists v :: JsonGrammar.IsJson(serialized, v) && Says(v, a)
  }

  lemma JsonOrNot(serialized: string)
    ensures SaysSomething(serialized) <==> Parse(serialized).Some?
    ensures Parse(serialized).None? ==> forall a :: !SaysAllowed(serialized, a)
  {
    forall v
      ensures JsonGrammar.IsJson(serialized, v) <==> Parse(serialized) == Some(v)
    {
      JsonGrammar.ParsesExactlyJson(serialized, v);
    }
  }

  lemma AllowedIsRead(serialized: string, v: Value, a: Artifact)
    requires Parse(serialized) == Some(v)
    ensures SaysAllowed(serialized, a) <==> FromJson(v) == Some(a)
  {
    AcceptsExactly(v, a);
    JsonGrammar.ParsesExactlyJson(serialized, v);
    if SaysAllowed(serialized, a) {
      var w :| JsonGrammar.IsJson(serialized, w) && Says(w, a);
      JsonGrammar.ParsesExactlyJson(serialized, w);
    }
  }

  /**
   * Acceptance, on any pasted text, in whatever layout: text that is not blank, at most 16,384 bytes, JSON, and says an allowed
   * artifact, which is returned in normal form. Every other text is refused for the first of these that fails.
   */
  lemma ParsesExactly(serialized: string, lib: Library)
    ensures var r := ParseArtifact(serialized, lib);
            && (r == Err(NothingPasted) <==> IsBlank(serialized))
            && (r == Err(TooLarge) <==> !IsBlank(serialized) && Utf8Length(serialized) > 16384)
            && (r == Err(NotJson) <==> Fits(serialized) && !SaysSomething(serialized))
            && (r == Err(SchemaMismatch) <==> Fits(serialized) && SaysSomething(serialized) && forall a :: !SaysAllowed(serialized, a))
            && (r.Ok? <==> Fits(serialized) && exists a :: SaysAllowed(serialized, a) && r.value == Normalize(a, lib))
  {
    JsonOrNot(serialized);
    if Parse(serialized).Some? {
      forall a
        ensures SaysAllowed(serialized, a) <==> FromJson(Parse(serialized).value) == Some(a)
      {
        AllowedIsRead(serialized, Parse(serialized).value, a);
      }
    }
  }

  /** A valid artifact is accepted from its JSON value in either layout. */
  lemma EitherLayoutParses(a: Artifact, layout: Layout, lib: Library)
    requires SchemaValid(a) && Utf8Length(Print(ToJson(a), layout)) <= 16384
    ensures ParseArtifact(Print(ToJson(a), layout), lib) == Ok(Normalize(a, lib))
  {
    PrintRoundTrips(ToJson(a), layout);
    ArtifactIsRead(a);
    var text := Print(ToJson(a), layout);
    assert text[0] == '{' && !IsSpace(text[0]);
  }

  // ---------------------------------------------------------------- length of the text

  function NullableSize(s: Option<string>): nat {
    if s.Some? then |s.value| + 2 else 4
  }

  /** Characters of a serialized artifact besides its numbers and signatures. */
  const FRAME_SIZE: nat := 392

  function TextSize(a: Artifact): nat {
    FRAME_SIZE + |a.chainId| + |a.state.balanceA| + |a.state.balanceB| + |a.state.nonce| + |a.state.stateEpoch|
    + NullableSize(a.signatures.partyA) + NullableSize(a.signatures.partyB)
  }

  lemma HexIsVerbatim(s: string, digits: nat)
    requires IsHexOf(s, digits)
    ensures AllVerbatim(s)
  {
  }

  lemma OneSize(key: string, value: Value, depth: nat)
    requires AllVerbatim(key) && Verbatim(value)
    ensures var f := [Field(key, value)];
            AllFieldsVerbatim(f) && FieldsSize(f, Indented, depth) == |key| + 4 + Size(value, Indented, depth)
  {
  }

  lemma MoreSize(key: string, value: Value, rest: seq<Field>, depth: nat)
    requires AllVerbatim(key) && Verbatim(value) && rest != [] && AllFieldsVerbatim(rest)
    ensures var f := [Field(key, value)] + rest;
            && AllFieldsVerbatim(f)
            && FieldsSize(f, Indented, depth)
               == |key| + 4 + Size(value, Indented, depth) + 2 + 2 * depth + FieldsSize(rest, Indented, depth)
  {
  }

  lemma SixSize(f: seq<Field>, depth: nat)
    requires |f| == 6 && AllFieldsVerbatim(f)
    ensures AllFieldsVerbatim(f[1..])
    ensures FieldsSize(f, Indented, depth)
            == |f[0].key| + 4 + Size(f[0].value, Indented, depth) + 2 + 2 * depth + FieldsSize(f[1..], Indented, depth)
  {
    SuffixSize(f, 0, depth);
    SuffixSize(f, 1, depth);
    assert f[0..] == f;
  }

  lemma StateIsVerbatim(s: StateFields)
    requires AllVerbatim(s.channelId) && AllVerbatim(s.balanceA) && AllVerbatim(s.balanceB)
    requires AllVerbatim(s.nonce) && AllVerbatim(s.stateEpoch)
    ensures AllFieldsVerbatim(StateJson(s))
  {
    assert AllVerbatim("CLOSE") && AllVerbatim("STATE");
    assert AllVerbatim("channelId") && AllVerbatim("balanceA") && AllVerbatim("balanceB");
    assert AllVerbatim("nonce") && AllVerbatim("stateEpoch") && AllVerbatim("stateType");
  }

  lemma StateSize(s: StateFields, depth: nat)
    requires AllVerbatim(s.channelId) && AllVerbatim(s.balanceA) && AllVerbatim(s.balanceB)
    requires AllVerbatim(s.nonce) && AllVerbatim(s.stateEpoch)
    ensures AllFieldsVerbatim(StateJson(s))
    ensures FieldsSize(StateJson(s), Indented, depth)
            == 100 + 10 * depth + |s.channelId| + |s.balanceA| + |s.balanceB| + |s.nonce| + |s.stateEpoch|
  {
    StateIsVerbatim(s);
    SixSize(StateJson(s), depth);
    FiveSize(StateJson(s)[1..], depth);
  }

  lemma SlotIsVerbatim(s: Option<string>, depth: nat)
    requires IsSignatureOrNull(s)
    ensures Verbatim(OrNull(s)) && Size(OrNull(s), Indented, depth) == NullableSize(s)
  {
  }

  lemma SignaturesSize(s: Signatures, depth: nat)
    requires IsSignatureOrNull(s.partyA) && IsSignatureOrNull(s.partyB)
    ensures AllFieldsVerbatim(SignaturesJson(s))
    ensures FieldsSize(SignaturesJson(s), Indented, depth) == 22 + 2 * depth + NullableSize(s.partyA) + NullableSize(s.partyB)
  {
    SlotIsVerbatim(s.partyA, depth);
    SlotIsVerbatim(s.partyB, depth);
    OneSize("partyB", OrNull(s.partyB), depth);
    var f1 := [Field("partyB", OrNull(s.partyB))];
    MoreSize("partyA", OrNull(s.partyA), f1, depth);
    assert [Field("partyA", OrNull(s.partyA))] + f1 == SignaturesJson(s);
  }

  lemma FiveSize(f: seq<Field>, depth: nat)
    requires |f| == 5 && AllFieldsVerbatim(f)
    ensures FieldsSize(f, Indented, depth) == 28 + 8 * depth
            + |f[0].key| + |f[1].key| + |f[2].key| + |f[3].key| + |f[4].key|
            + Size(f[0].value, Indented, depth) + Size(f[1].value, Indented, depth) + Size(f[2].value, Indented, depth)
            + Size(f[3].value, Indented, depth) + Size(f[4].value, Indented, depth)
  {
    SuffixSize(f, 0, depth);
    SuffixSize(f, 1, depth);
    SuffixSize(f, 2, depth);
    SuffixSize(f, 3, depth);
    SuffixSize(f, 4, depth);
    assert f[0..] == f;
  }

  lemma SuffixSize(f: seq<Field>, k: nat, depth: nat)
    requires k < |f| && AllFieldsVerbatim(f)
    ensures AllFieldsVerbatim(f[k..])
    ensures FieldsSize(f[k..], Indented, depth) == |f[k].key| + 4 + Size(f[k].value, Indented, depth)
            + if k == |f| - 1 then 0 else 2 + 2 * depth + FieldsSize(f[k + 1..], Indented, depth)
  {
  }

  lemma KeysAreVerbatim()
    ensures AllVerbatim("format") && AllVerbatim("chainId") && AllVerbatim("verifyingContract")
    ensures AllVerbatim("state") && AllVerbatim("signatures") && AllVerbatim(FORMAT)
  {
  }

  lemma NestedSize(fields: seq<Field>, depth: nat)
    requires fields != [] && AllFieldsVerbatim(fields)
    ensures Verbatim(Object(fields))
    ensures Size(Object(fields), Indented, depth) == 6 + 4 * depth + FieldsSize(fields, Indented, depth + 1)
  {
  }

  lemma ArtifactIsVerbatim(a: Artifact)
    requires SchemaValid(a) && Verbatim(Object(StateJson(a.state))) && Verbatim(Object(SignaturesJson(a.signatures)))
    ensures AllFieldsVerbatim(ArtifactJson(a))
  {
    KeysAreVerbatim();
    HexIsVerbatim(a.verifyingContract, 40);
  }

  lemma PartsSize(a: Artifact)
    requires AllFieldsVerbatim(ArtifactJson(a))
    requires Verbatim(Object(StateJson(a.state))) && Verbatim(Object(SignaturesJson(a.signatures)))
    ensures FieldsSize(ArtifactJson(a), Indented, 1) == 112 + |a.chainId| + |a.verifyingContract|
            + Size(Object(StateJson(a.state)), Indented, 1) + Size(Object(SignaturesJson(a.signatures)), Indented, 1)
  {
    FiveSize(ArtifactJson(a), 1);
    assert Size(Str(FORMAT), Indented, 1) == 27;
  }

  lemma ArtifactSize(a: Artifact)
    requires SchemaValid(a)
    ensures Verbatim(ToJson(a)) && Size(ToJson(a), Indented, 0) == TextSize(a)
  {
    HexIsVerbatim(a.state.channelId, 64);
    StateSize(a.state, 2);
    NestedSize(StateJson(a.state), 1);
    SignaturesSize(a.signatures, 2);
    NestedSize(SignaturesJson(a.signatures), 1);
    ArtifactIsVerbatim(a);
    NestedSize(ArtifactJson(a), 0);
    PartsSize(a);
  }

  /** The length of a serialized artifact in bytes, exactly: a constant, the digits of its numbers and its signatures. */
  lemma SerializedSize(a: Artifact, lib: Library)
    requires SchemaValid(a)
    ensures Serialize(a, lib).Ok?
    ensures |Serialize(a, lib).value| == Utf8Length(Serialize(a, lib).value) == TextSize(a)
    ensures TextSize(Normalize(a, lib)) == TextSize(a)
  {
    var n := Normalize(a, lib);
    NormalFormIsStable(a, lib);
    ArtifactSize(n);
    PrintedSize(ToJson(n), Indented, 0, "");
    Utf8LengthOfAscii(Print(ToJson(n), Indented));
  }

  /**
   * Parsing a serialized artifact gives its normal form, exactly when its text has at most 16,384 bytes; serializing
   * the normal form gives the same text.
   */
  lemma SerializeRoundTrips(a: Artifact, lib: Library)
    requires SchemaValid(a)
    ensures Serialize(a, lib).Ok? && Serialize(Normalize(a, lib), lib) == Serialize(a, lib)
    ensures ParseArtifact(Serialize(a, lib).value, lib) == if TextSize(a) <= MAX_BYTES then Ok(Normalize(a, lib)) else Err(TooLarge)
  {
    var n := Normalize(a, lib);
    var text := Print(ToJson(n), Indented);
    NormalFormIsStable(a, lib);
    SerializedSize(a, lib);
    PrintRoundTrips(ToJson(n), Indented);
    ArtifactIsRead(n);
    assert text[0] == '{' && !IsSpace(text[0]);
  }

  /** Two signatures of the largest size never fit, whatever the state; two of at most 3,900 bytes fit with 380 digits. */
  lemma WhatFits(a: Artifact)
    requires SchemaValid(a) && a.signatures.partyA.Some? && a.signatures.partyB.Some?
    ensures (|a.signatures.partyA.value| - 2) / 2 == MAX_SIGNATURE_BYTES && (|a.signatures.partyB.value| - 2) / 2 == MAX_SIGNATURE_BYTES
            ==> TextSize(a) > MAX_BYTES
    ensures (|a.signatures.partyA.value| - 2) / 2 <= 3900 && (|a.signatures.partyB.value| - 2) / 2 <= 3900
            && |a.chainId| + |a.state.balanceA| + |a.state.balanceB| + |a.state.nonce| + |a.state.stateEpoch| <= 380
            ==> TextSize(a) <= MAX_BYTES
  {
  }

  /** Whatever text was pasted: a parsed artifact is schema-valid, in normal form, and its own text parses to itself. */
  lemma ParsedIsNormal(serialized: string, lib: Library)
    requires ParseArtifact(serialized, lib).Ok?
    ensures var a := ParseArtifact(serialized, lib).value;
            && SchemaValid(a) && Normalize(a, lib) == a
            && (TextSize(a) <= MAX_BYTES ==> ParseArtifact(Serialize(a, lib).value, lib) == Ok(a))
  {
    var raw := FromJson(Parse(serialized).value).value;
    NormalFormIsStable(raw, lib);
    SerializeRoundTrips(Normalize(raw, lib), lib);
  }
}
