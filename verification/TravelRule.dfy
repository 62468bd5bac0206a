/** Travel Rule payloads, commitments and challenges (backend/src/lib/travel-rule.ts). */
module TravelRule {
  import opened Wrappers
  import opened Text
  import opened Json
  import opened ChallengeText
  import WalletChallenge

  const ENCRYPTION_DOMAIN: string := "noblepay:travel-rule:aes-256-gcm:v1"
  const COMMITMENT_DOMAIN: string := "noblepay:travel-rule:ivms101:v1"

  datatype PartyData = PartyData(
    originatorName: string, originatorAccount: string, originatorAddress: string,
    beneficiaryName: string, beneficiaryAccount: string,
    originatorNationalId: Option<string>, beneficiaryInstitution: Option<string>)

  datatype Business = Business(id: string, address: string)

  datatype Payment = Payment(
    recordId: string, paymentId: string, sender: string, recipient: string, amount: string, currency: string,
    purposeHash: Option<string>, initiatedAt: string)

  /** `CanonicalTravelRulePayload`, with every field already in canonical form. */
  datatype Payload = Payload(business: Business, payment: Payment, data: PartyData)

  // ---------------------------------------------------------------- building

  /** Library functions on strings: trim and NFC, EIP-55, decimal printing, upper case with trim. */
  datatype Canonicalizer = Canonicalizer(
    text: string -> string,
    address: string -> Option<string>,
    decimal: string -> Option<string>,
    currency: string -> string)

  predicate IsControl(c: char) {
    c as int <= 0x1f || 0x7f <= c as int <= 0x9f
  }

  /** `boundedPrivateString`: the canonical text, unless it is empty, too long or holds control characters. */
  function Bounded(c: Canonicalizer, raw: string, maximumBytes: nat): Option<string> {
    var s := c.text(raw);
    if s == "" || Utf8Length(s) > maximumBytes || (exists i :: 0 <= i < |s| && IsControl(s[i])) then None else Some(s)
  }

  function BoundedOptional(c: Canonicalizer, raw: Option<string>, maximumBytes: nat): Option<Option<string>> {
    if raw.None? then Some(None)
    else
      match Bounded(c, raw.value, maximumBytes)
      case None => None
      case Some(s) => Some(Some(s))
  }

  /** `TravelRuleDataSchema`. */
  function CanonicalData(c: Canonicalizer, data: PartyData): Option<PartyData> {
    match (Bounded(c, data.originatorName, 200), Bounded(c, data.originatorAccount, 128), Bounded(c, data.originatorAddress, 512),
           Bounded(c, data.beneficiaryName, 200), Bounded(c, data.beneficiaryAccount, 128),
           BoundedOptional(c, data.originatorNationalId, 128), BoundedOptional(c, data.beneficiaryInstitution, 200))
    case (Some(name), Some(account), Some(address), Some(otherName), Some(otherAccount), Some(id), Some(institution)) =>
      Some(PartyData(name, account, address, otherName, otherAccount, id, institution))
    case _ => None
  }

  /** `buildCanonicalTravelRulePayload`; a thrown error is `None`. */
  function BuildPayload(c: Canonicalizer, business: Business, payment: Payment, data: PartyData): Option<Payload> {
    match (CanonicalData(c, data), c.address(business.address), c.address(payment.sender), c.address(payment.recipient),
           c.decimal(payment.amount))
    case (Some(canonical), Some(address), Some(sender), Some(recipient), Some(amount)) =>
      var purposeHash :=
        if payment.purposeHash.Some? && payment.purposeHash.value != "" then Some(Lower(payment.purposeHash.value)) else None;
      Some(Payload(
        Business(business.id, address),
        Payment(payment.recordId, Lower(payment.paymentId), sender, recipient, amount, c.currency(payment.currency), purposeHash,
                payment.initiatedAt),
        canonical))
    case _ => None
  }

  /** The library functions leave their own results unchanged. */
  ghost predicate IsIdempotent(c: Canonicalizer) {
    && (forall s :: c.text(c.text(s)) == c.text(s))
    && (forall s :: c.address(s).Some? ==> c.address(c.address(s).value) == c.address(s))
    && (forall s :: c.decimal(s).Some? ==> c.decimal(c.decimal(s).value) == c.decimal(s))
    && (forall s :: c.currency(c.currency(s)) == c.currency(s))
  }

  /** What the schema guarantees of a text: canonical, not empty, short enough and free of control characters. */
  ghost predicate IsBounded(c: Canonicalizer, s: string, maximumBytes: nat) {
    && s != "" && Utf8Length(s) <= maximumBytes && (forall i :: 0 <= i < |s| ==> 0x1f < s[i] as int < 0x7f || 0x9f < s[i] as int)
    && exists raw :: c.text(raw) == s
  }

  ghost predicate IsCanonicalData(c: Canonicalizer, d: PartyData) {
    && IsBounded(c, d.originatorName, 200) && IsBounded(c, d.originatorAccount, 128) && IsBounded(c, d.originatorAddress, 512)
    && IsBounded(c, d.beneficiaryName, 200) && IsBounded(c, d.beneficiaryAccount, 128)
    && (d.originatorNationalId.Some? ==> IsBounded(c, d.originatorNationalId.value, 128))
    && (d.beneficiaryInstitution.Some? ==> IsBounded(c, d.beneficiaryInstitution.value, 200))
  }

  /** A payload that building can give. */
  ghost predicate IsBuilt(c: Canonicalizer, p: Payload) {
    && IsCanonicalData(c, p.data)
    && Lower(p.payment.paymentId) == p.payment.paymentId
    && (p.payment.purposeHash.Some? ==>
          p.payment.purposeHash.value != "" && Lower(p.payment.purposeHash.value) == p.payment.purposeHash.value)
    && (exists raw :: c.address(raw) == Some(p.business.address))
    && (exists raw :: c.address(raw) == Some(p.payment.sender)) && (exists raw :: c.address(raw) == Some(p.payment.recipient))
    && (exists raw :: c.decimal(raw) == Some(p.payment.amount)) && (exists raw :: c.currency(raw) == p.payment.currency)
  }

  lemma BoundedGives(c: Canonicalizer, raw: string, maximumBytes: nat)
    ensures Bounded(c, raw, maximumBytes).Some? ==> IsBounded(c, Bounded(c, raw, maximumBytes).value, maximumBytes)
  {
  }

  lemma BoundedAgain(c: Canonicalizer, s: string, maximumBytes: nat)
    requires IsIdempotent(c) && IsBounded(c, s, maximumBytes)
    ensures Bounded(c, s, maximumBytes) == Some(s)
  {
    var raw :| c.text(raw) == s;
    assert c.text(c.text(raw)) == c.text(raw);
  }

  lemma DataIsCanonical(c: Canonicalizer, data: PartyData)
    ensures CanonicalData(c, data).Some? ==> IsCanonicalData(c, CanonicalData(c, data).value)
  {
    BoundedGives(c, data.originatorName, 200);
    BoundedGives(c, data.originatorAccount, 128);
    BoundedGives(c, data.originatorAddress, 512);
    BoundedGives(c, data.beneficiaryName, 200);
    BoundedGives(c, data.beneficiaryAccount, 128);
    if data.originatorNationalId.Some? {
      BoundedGives(c, data.originatorNationalId.value, 128);
    }
    if data.beneficiaryInstitution.Some? {
      BoundedGives(c, data.beneficiaryInstitution.value, 200);
    }
  }

  lemma CanonicalDataAgain(c: Canonicalizer, d: PartyData)
    requires IsIdempotent(c) && IsCanonicalData(c, d)
    ensures CanonicalData(c, d) == Some(d)
  {
    BoundedAgain(c, d.originatorName, 200);
    BoundedAgain(c, d.originatorAccount, 128);
    BoundedAgain(c, d.originatorAddress, 512);
    BoundedAgain(c, d.beneficiaryName, 200);
    BoundedAgain(c, d.beneficiaryAccount, 128);
    if d.originatorNationalId.Some? {
      BoundedAgain(c, d.originatorNationalId.value, 128);
    }
    if d.beneficiaryInstitution.Some? {
      BoundedAgain(c, d.beneficiaryInstitution.value, 200);
    }
  }

  /** Built payloads are canonical: bounded non-empty texts, no empty optional field, lower-case payment id and purpose hash. */
  lemma BuiltPayloadIsCanonical(c: Canonicalizer, business: Business, payment: Payment, data: PartyData)
    requires BuildPayload(c, business, payment, data).Some?
    ensures IsBuilt(c, BuildPayload(c, business, payment, data).value)
  {
    DataIsCanonical(c, data);
    LowerIdempotent(payment.paymentId);
    if payment.purposeHash.Some? {
      LowerIdempotent(payment.purposeHash.value);
    }
    var p := BuildPayload(c, business, payment, data).value;
    assert c.address(business.address) == Some(p.business.address) && c.address(payment.sender) == Some(p.payment.sender);
    assert c.address(payment.recipient) == Some(p.payment.recipient) && c.decimal(payment.amount) == Some(p.payment.amount);
    assert c.currency(payment.currency) == p.payment.currency;
  }

  /** Each field of a built payload is the canonical form of the input's field of the same name. */
  lemma BuildsFieldByField(c: Canonicalizer, business: Business, payment: Payment, data: PartyData)
    requires BuildPayload(c, business, payment, data).Some?
    ensures var p := BuildPayload(c, business, payment, data).value;
            && p.business.id == business.id && Some(p.business.address) == c.address(business.address)
            && p.payment.recordId == payment.recordId && p.payment.paymentId == Lower(payment.paymentId)
            && Some(p.payment.sender) == c.address(payment.sender) && Some(p.payment.recipient) == c.address(payment.recipient)
            && Some(p.payment.amount) == c.decimal(payment.amount) && p.payment.currency == c.currency(payment.currency)
            && p.payment.initiatedAt == payment.initiatedAt
            && p.payment.purposeHash == (match payment.purposeHash
                                         case Some(hash) => if hash == "" then None else Some(Lower(hash))
                                         case None => None)
    ensures var d := BuildPayload(c, business, payment, data).value.data;
            && d.originatorName == c.text(data.originatorName) && d.originatorAccount == c.text(data.originatorAccount)
            && d.originatorAddress == c.text(data.originatorAddress)
            && d.beneficiaryName == c.text(data.beneficiaryName) && d.beneficiaryAccount == c.text(data.beneficiaryAccount)
            && d.originatorNationalId == (match data.originatorNationalId case Some(s) => Some(c.text(s)) case None => None)
            && d.beneficiaryInstitution == (match data.beneficiaryInstitution case Some(s) => Some(c.text(s)) case None => None)
  {
  }

  /** For idempotent library functions the built payloads are exactly those that building again leaves as they are. */
  lemma RebuildingChangesNothing(c: Canonicalizer, p: Payload)
    requires IsIdempotent(c)
    ensures IsBuilt(c, p) <==> BuildPayload(c, p.business, p.payment, p.data) == Some(p)
  {
    if IsBuilt(c, p) {
      CanonicalDataAgain(c, p.data);
      assert c.address(p.business.address) == Some(p.business.address);
      assert c.address(p.payment.sender) == Some(p.payment.sender) && c.address(p.payment.recipient) == Some(p.payment.recipient);
      assert c.decimal(p.payment.amount) == Some(p.payment.amount) && c.currency(p.payment.currency) == p.payment.currency;
    }
    if BuildPayload(c, p.business, p.payment, p.data) == Some(p) {
      BuiltPayloadIsCanonical(c, p.business, p.payment, p.data);
    }
  }

  // ---------------------------------------------------------------- canonical text

  function OptionalField(key: string, s: Option<string>): seq<Field> {
    if s.Some? then [Field(key, Str(s.value))] else []
  }

  function DataFields(d: PartyData): seq<Field> {
    [
      Field("originator_name", Str(d.originatorName)),
      Field("originator_account", Str(d.originatorAccount)),
      Field("originator_address", Str(d.originatorAddress)),
      Field("beneficiary_name", Str(d.beneficiaryName)),
      Field("beneficiary_account", Str(d.beneficiaryAccount))
    ]
    + OptionalField("originator_id", d.originatorNationalId)
    + OptionalField("beneficiary_institution", d.beneficiaryInstitution)
  }

  function PaymentFields(p: Payment): seq<Field> {
    [
      Field("recordId", Str(p.recordId)),
      Field("paymentId", Str(p.paymentId)),
      Field("sender", Str(p.sender)),
      Field("recipient", Str(p.recipient)),
      Field("amount", Str(p.amount)),
      Field("currency", Str(p.currency)),
      Field("purposeHash", OrNull(p.purposeHash)),
      Field("initiatedAt", Str(p.initiatedAt))
    ]
  }

  function PayloadValue(p: Payload): (v: Value)
    ensures Printable(v)
  {
    Object([
      Field("version", Str("NOBLEPAY_IVMS101_V1")),
      Field("business", Object([Field("id", Str(p.business.id)), Field("address", Str(p.business.address))])),
      Field("payment", Object(PaymentFields(p.payment))),
      Field("travelRuleData", Object(DataFields(p.data)))
    ])
  }

  /** `serializeCanonicalTravelRulePayload`. */
  function Serialize(p: Payload): string {
    Print(PayloadValue(p), Compact)
  }

  lemma DataFieldsAreInjective(d: PartyData, e: PartyData)
    requires DataFields(d) == DataFields(e)
    ensures d == e
  {
    var f, g := DataFields(d), DataFields(e);
    assert f[0] == g[0] && f[1] == g[1] && f[2] == g[2] && f[3] == g[3] && f[4] == g[4];
    assert "originator_id"[0] == 'o' && "beneficiary_institution"[0] == 'b';
    if |f| > 5 {
      assert f[5] == g[5];
    }
    if |f| > 6 {
      assert f[6] == g[6];
    }
  }

  lemma PaymentFieldsAreInjective(p: Payment, q: Payment)
    requires PaymentFields(p) == PaymentFields(q)
    ensures p == q
  {
  }

  /** The canonical text determines the payload: parsing gives its value back, and the value its fields. */
  lemma CanonicalTextIsInjective(p: Payload, q: Payload)
    requires Serialize(p) == Serialize(q)
    ensures p == q
  {
    PrintRoundTrips(PayloadValue(p), Compact);
    PrintRoundTrips(PayloadValue(q), Compact);
    var f, g := PayloadValue(p).fields, PayloadValue(q).fields;
    assert f[1] == g[1] && f[2] == g[2] && f[3] == g[3];
    assert f[1].value.fields[0] == g[1].value.fields[0] && f[1].value.fields[1] == g[1].value.fields[1];
    PaymentFieldsAreInjective(p.payment, q.payment);
    DataFieldsAreInjective(p.data, q.data);
  }

  /** A string property, or none. */
  ghost predicate Says(fields: seq<Field>, key: string, s: Option<string>) {
    Lookup(fields, key) == match s case Some(x) => Some(Str(x)) case None => None
  }

  /** A string property, or an explicit null. */
  ghost predicate SaysOrNull(fields: seq<Field>, key: string, s: Option<string>) {
    Lookup(fields, key) == match s case Some(x) => Some(Str(x)) case None => Some(Null)
  }

  ghost predicate PaymentSaid(f: seq<Field>, p: Payment) {
    && Says(f, "recordId", Some(p.recordId)) && Says(f, "paymentId", Some(p.paymentId))
    && Says(f, "sender", Some(p.sender)) && Says(f, "recipient", Some(p.recipient))
    && Says(f, "amount", Some(p.amount)) && Says(f, "currency", Some(p.currency))
    && SaysOrNull(f, "purposeHash", p.purposeHash) && Says(f, "initiatedAt", Some(p.initiatedAt))
  }

  ghost predicate DataSaid(f: seq<Field>, d: PartyData) {
    && Says(f, "originator_name", Some(d.originatorName)) && Says(f, "originator_account", Some(d.originatorAccount))
    && Says(f, "originator_address", Some(d.originatorAddress)) && Says(f, "originator_id", d.originatorNationalId)
    && Says(f, "beneficiary_name", Some(d.beneficiaryName)) && Says(f, "beneficiary_account", Some(d.beneficiaryAccount))
    && Says(f, "beneficiary_institution", d.beneficiaryInstitution)
  }

  /** The object says this payload, each value under its own key. */
  ghost predicate PayloadSaid(v: Value, p: Payload) {
    && v.Object? && Says(v.fields, "version", Some("NOBLEPAY_IVMS101_V1"))
    && (match Lookup(v.fields, "business")
        case Some(Object(f)) => Says(f, "id", Some(p.business.id)) && Says(f, "address", Some(p.business.address))
        case _ => false)
    && (match Lookup(v.fields, "payment") case Some(Object(f)) => PaymentSaid(f, p.payment) case _ => false)
    && (match Lookup(v.fields, "travelRuleData") case Some(Object(f)) => DataSaid(f, p.data) case _ => false)
  }

  lemma PaymentIsSaid(p: Payment)
    ensures PaymentSaid(PaymentFields(p), p)
  {
    var f := PaymentFields(p);
    LookupAt(f, 0);
    LookupAt(f, 1);
    LookupAt(f, 2);
    LookupAt(f, 3);
    LookupAt(f, 4);
    LookupAt(f, 5);
    LookupAt(f, 6);
    LookupAt(f, 7);
  }

  lemma RequiredDataIsSaid(d: PartyData)
    ensures var f := DataFields(d);
            && Says(f, "originator_name", Some(d.originatorName)) && Says(f, "originator_account", Some(d.originatorAccount))
            && Says(f, "originator_address", Some(d.originatorAddress))
            && Says(f, "beneficiary_name", Some(d.beneficiaryName)) && Says(f, "beneficiary_account", Some(d.beneficiaryAccount))
  {
    var f := DataFields(d);
    LookupAt(f, 0);
    LookupAt(f, 1);
    LookupAt(f, 2);
    LookupAt(f, 3);
    LookupAt(f, 4);
  }

  lemma {:induction false} LookupNowhere(fields: seq<Field>, key: string)
    requires forall i :: 0 <= i < |fields| ==> fields[i].key != key
    ensures Lookup(fields, key) == None
  {
    if fields != [] {
      LookupNowhere(fields[..|fields| - 1], key);
    }
  }

  lemma OptionalDataIsSaid(d: PartyData)
    ensures Says(DataFields(d), "originator_id", d.originatorNationalId)
    ensures Says(DataFields(d), "beneficiary_institution", d.beneficiaryInstitution)
  {
    var f := DataFields(d);
    if d.originatorNationalId.Some? {
      LookupAt(f, 5);
    } else {
      LookupNowhere(f, "originator_id");
    }
    if d.beneficiaryInstitution.Some? {
      LookupAt(f, |f| - 1);
    } else {
      LookupNowhere(f, "beneficiary_institution");
    }
  }

  /** Reading the canonical text back finds each value of the payload under its own key. */
  lemma CanonicalTextSays(p: Payload)
    ensures Parse(Serialize(p)).Some? && PayloadSaid(Parse(Serialize(p)).value, p)
  {
    PrintRoundTrips(PayloadValue(p), Compact);
    var f := PayloadValue(p).fields;
    LookupAt(f, 0);
    LookupAt(f, 1);
    LookupAt(f, 2);
    LookupAt(f, 3);
    LookupAt(f[1].value.fields, 0);
    LookupAt(f[1].value.fields, 1);
    PaymentIsSaid(p.payment);
    RequiredDataIsSaid(p.data);
    OptionalDataIsSaid(p.data);
  }

  // ---------------------------------------------------------------- commitments

  /** What `travelRulePayloadCommitment` hashes. */
  function PayloadPreimage(canonicalPayload: string): string {
    COMMITMENT_DOMAIN + "\n" + canonicalPayload
  }

  /** `s || null`: an empty string counts as none. */
  function NonEmpty(s: Option<string>): Option<string> {
    if s == Some("") then None else s
  }

  function OriginatorValue(d: PartyData): (v: Value)
    ensures Printable(v)
  {
    Object([
      Field("name", Str(d.originatorName)), Field("account", Str(d.originatorAccount)),
      Field("address", Str(d.originatorAddress)), Field("nationalId", OrNull(NonEmpty(d.originatorNationalId)))
    ])
  }

  function BeneficiaryValue(d: PartyData): (v: Value)
    ensures Printable(v)
  {
    Object([
      Field("name", Str(d.beneficiaryName)), Field("account", Str(d.beneficiaryAccount)),
      Field("institution", OrNull(NonEmpty(d.beneficiaryInstitution)))
    ])
  }

  /** What `travelRulePartyCommitments` hashes. */
  function OriginatorPreimage(p: Payload): string {
    COMMITMENT_DOMAIN + ":originator:" + p.payment.paymentId + ":" + Print(OriginatorValue(p.data), Compact)
  }

  function BeneficiaryPreimage(p: Payload): string {
    COMMITMENT_DOMAIN + ":beneficiary:" + p.payment.paymentId + ":" + Print(BeneficiaryValue(p.data), Compact)
  }

  /** The party preimages: domain, payment id, and an object that says the party's data, each value under its own key. */
  lemma PartyPreimagesSay(p: Payload)
    ensures var f := OriginatorValue(p.data).fields;
            && OriginatorPreimage(p)
               == COMMITMENT_DOMAIN + ":originator:" + p.payment.paymentId + ":" + Print(OriginatorValue(p.data), Compact)
            && Says(f, "name", Some(p.data.originatorName)) && Says(f, "account", Some(p.data.originatorAccount))
            && Says(f, "address", Some(p.data.originatorAddress)) && SaysOrNull(f, "nationalId", NonEmpty(p.data.originatorNationalId))
    ensures var f := BeneficiaryValue(p.data).fields;
            && BeneficiaryPreimage(p)
               == COMMITMENT_DOMAIN + ":beneficiary:" + p.payment.paymentId + ":" + Print(BeneficiaryValue(p.data), Compact)
            && Says(f, "name", Some(p.data.beneficiaryName)) && Says(f, "account", Some(p.data.beneficiaryAccount))
            && SaysOrNull(f, "institution", NonEmpty(p.data.beneficiaryInstitution))
  {
    var f, g := OriginatorValue(p.data).fields, BeneficiaryValue(p.data).fields;
    LookupAt(f, 0);
    LookupAt(f, 1);
    LookupAt(f, 2);
    LookupAt(f, 3);
    LookupAt(g, 0);
    LookupAt(g, 1);
    LookupAt(g, 2);
  }

  /** Equal commitment preimages mean the same business, payment and party data. */
  lemma CommitmentBindsPayload(p: Payload, q: Payload)
    requires PayloadPreimage(Serialize(p)) == PayloadPreimage(Serialize(q))
    ensures p == q
  {
    SameAfterPrefix(COMMITMENT_DOMAIN + "\n", Serialize(p), Serialize(q));
    CanonicalTextIsInjective(p, q);
  }

  /** A colon-free head before a colon is recovered from the text, and so is the rest. */
  lemma {:induction false} SplitsAtColon(a: string, x: string, b: string, y: string)
    requires ':' !in a && ':' !in b && a + ":" + x == b + ":" + y
    ensures a == b && x == y
  {
    var s, t := a + ":" + x, b + ":" + y;
    assert s[|a|] == ':' && t[|b|] == ':';
    assert |a| == |b|;
    assert a == s[..|a|] && b == t[..|b|];
    assert x == s[|a| + 1..] && y == t[|b| + 1..];
  }

  lemma PartyPreimageSplits(domain: string, a: string, x: string, b: string, y: string)
    requires ':' !in a && ':' !in b && domain + a + ":" + x == domain + b + ":" + y
    ensures a == b && x == y
  {
    DomainCancels(domain, a, x, b, y);
    SplitsAtColon(a, x, b, y);
  }

  lemma DomainCancels(domain: string, a: string, x: string, b: string, y: string)
    requires domain + a + ":" + x == domain + b + ":" + y
    ensures a + ":" + x == b + ":" + y
  {
    assert domain + a + ":" + x == domain + (a + ":" + x);
    assert domain + b + ":" + y == domain + (b + ":" + y);
    SameAfterPrefix(domain, a + ":" + x, b + ":" + y);
  }

  // An object that begins with a field name starting with "n" is found again in a text: its first three characters occur
  // nowhere else in it, because quotes inside strings are escaped and no field name or value ends right before an "n".

  /** The characters `{"n` stand at position `k`. */
  predicate OpensAt(s: string, k: nat) {
    k + 2 < |s| && s[k] == '{' && s[k + 1] == '"' && s[k + 2] == 'n'
  }

  predicate OpensNowhere(s: string) {
    forall k :: 0 <= k < |s| ==> !OpensAt(s, k)
  }

  lemma InFront(c: char, rest: string)
    requires OpensNowhere(rest) && !OpensAt([c] + rest, 0)
    ensures OpensNowhere([c] + rest)
  {
    var s := [c] + rest;
    forall k | 0 <= k < |s|
      ensures !OpensAt(s, k)
    {
      assert k > 0 ==> (OpensAt(s, k) <==> OpensAt(rest, k - 1));
    }
  }

  lemma EscapedOpensNowhere(c: char, rest: string)
    requires OpensNowhere(rest) && (c == '{' ==> !OpensAt([c] + rest, 0))
    ensures OpensNowhere(EscapedTo(c, rest))
  {
    var t := EscapedTo(c, rest);
    forall k | 0 <= k < |t|
      ensures !OpensAt(t, k)
    {
      var n := |t| - |rest|;
      assert t[n..] == rest;
      assert k >= n ==> (OpensAt(t, k) <==> OpensAt(rest, k - n));
    }
  }

  lemma {:induction false} CharsOpenNowhere(s: string, rest: string)
    requires OpensNowhere(rest) && rest != "" && rest[0] != 'n'
    ensures OpensNowhere(CharsTo(s, rest))
    ensures s != "" ==> CharsTo(s, rest)[0] != '"'
  {
    if s == "" {
      InFront('"', rest);
    } else {
      CharsOpenNowhere(s[1..], rest);
      EscapeUndone(s[0], CharsTo(s[1..], rest));
      EscapedOpensNowhere(s[0], CharsTo(s[1..], rest));
    }
  }

  lemma QuotedOpensNowhere(s: string, rest: string)
    requires OpensNowhere(rest) && rest != "" && rest[0] != 'n'
    ensures OpensNowhere(QuotedTo(s, rest))
  {
    CharsOpenNowhere(s, rest);
    InFront('"', CharsTo(s, rest));
  }

  /** Fields whose values are strings or null. */
  predicate AllAtoms(fields: seq<Field>) {
    forall i :: 0 <= i < |fields| ==> Printable(fields[i].value) && (fields[i].value.Str? || fields[i].value.Null?)
  }

  lemma AtomOpensNowhere(v: Value, depth: nat, rest: string)
    requires (v.Str? || v.Null?) && OpensNowhere(rest) && rest != "" && rest[0] != 'n'
    ensures OpensNowhere(PrintedTo(v, Compact, depth, rest))
  {
    if v.Str? {
      QuotedOpensNowhere(v.chars, rest);
    } else {
      InFront('l', rest);
      InFront('l', ['l'] + rest);
      InFront('u', ['l'] + (['l'] + rest));
      InFront('n', ['u'] + (['l'] + (['l'] + rest)));
      assert "null" + rest == ['n'] + (['u'] + (['l'] + (['l'] + rest)));
    }
  }

  lemma {:induction false} FieldsOpenNowhere(fields: seq<Field>, depth: nat, rest: string)
    requires fields != [] && AllAtoms(fields)
    requires OpensNowhere(rest) && rest != "" && rest[0] != 'n'
    ensures OpensNowhere(FieldsTo(fields, Compact, depth, rest))
    decreases fields
  {
    var after := rest;
    if |fields| > 1 {
      FieldsOpenNowhere(fields[1..], depth, rest);
      InFront(',', FieldsTo(fields[1..], Compact, depth, rest));
      after := [','] + FieldsTo(fields[1..], Compact, depth, rest);
    }
    var value := PrintedTo(fields[0].value, Compact, depth, after);
    AtomOpensNowhere(fields[0].value, depth, after);
    InFront(':', value);
    QuotedOpensNowhere(fields[0].key, [':'] + value);
  }

  /** A flat object whose first field is `name` opens at its beginning and nowhere else. */
  lemma ObjectOpensOnce(fields: seq<Field>)
    requires fields != [] && fields[0].key == "name" && AllAtoms(fields)
    ensures var text := Print(Object(fields), Compact);
            OpensAt(text, 0) && OpensNowhere(text[1..])
  {
    var inner := FieldsTo(fields, Compact, 1, ['}']);
    FieldsOpenNowhere(fields, 1, ['}']);
    var text := Print(Object(fields), Compact);
    assert ['}'] + "" == ['}'];
    assert text == ['{'] + inner && text[1..] == inner;
    FirstIsName(fields[0], inner[1..]);
  }

  lemma FirstIsName(field: Field, chars: string)
    requires field.key == "name"
    ensures forall rest :: chars == CharsTo(field.key, rest) ==> chars != "" && chars[0] == 'n'
  {
  }

  /** The object after a colon is recovered from the text, and so is what stands in front, colons and all. */
  lemma SplitsAtObject(a: string, x: string, b: string, y: string)
    requires OpensAt(x, 0) && OpensNowhere(x[1..]) && OpensAt(y, 0) && OpensNowhere(y[1..])
    requires a + ":" + x == b + ":" + y
    ensures a == b && x == y
  {
    LongerOpensLater(a, x, b, y);
    LongerOpensLater(b, y, a, x);
    var s, t := a + ":" + x, b + ":" + y;
    assert a == s[..|a|] && b == t[..|b|];
    assert x == s[|a| + 1..] && y == t[|b| + 1..];
  }

  lemma LongerOpensLater(a: string, x: string, b: string, y: string)
    requires OpensAt(x, 0) && OpensAt(y, 0) && a + ":" + x == b + ":" + y
    ensures |b| > |a| ==> OpensAt(x[1..], |b| - |a| - 1)
  {
    if |b| > |a| {
      var k := |b| - |a|;
      assert x == (a + ":" + x)[|a| + 1..] && y == (b + ":" + y)[|b| + 1..];
      assert x[k..] == y;
    }
  }

  lemma PartyPreimageBinds(domain: string, a: string, f: seq<Field>, b: string, g: seq<Field>)
    requires f != [] && f[0].key == "name" && AllAtoms(f)
    requires g != [] && g[0].key == "name" && AllAtoms(g)
    requires domain + a + ":" + Print(Object(f), Compact) == domain + b + ":" + Print(Object(g), Compact)
    ensures a == b && f == g
  {
    var x, y := Print(Object(f), Compact), Print(Object(g), Compact);
    ObjectOpensOnce(f);
    ObjectOpensOnce(g);
    DomainCancels(domain, a, x, b, y);
    SplitsAtObject(a, x, b, y);
    PrintRoundTrips(Object(f), Compact);
    PrintRoundTrips(Object(g), Compact);
  }

  /** An originator commitment binds the payment id, whatever it is, and the originator's data; an empty id counts as none. */
  lemma OriginatorCommitmentBinds(p: Payload, q: Payload)
    requires OriginatorPreimage(p) == OriginatorPreimage(q)
    ensures p.payment.paymentId == q.payment.paymentId
    ensures p.data.originatorName == q.data.originatorName && p.data.originatorAccount == q.data.originatorAccount
    ensures p.data.originatorAddress == q.data.originatorAddress
    ensures NonEmpty(p.data.originatorNationalId) == NonEmpty(q.data.originatorNationalId)
  {
    var f, g := OriginatorValue(p.data).fields, OriginatorValue(q.data).fields;
    PartyPreimageBinds(COMMITMENT_DOMAIN + ":originator:", p.payment.paymentId, f, q.payment.paymentId, g);
    assert f[0] == g[0] && f[1] == g[1] && f[2] == g[2] && f[3] == g[3];
  }

  /** A beneficiary commitment binds the payment id, whatever it is, and the beneficiary's data; an empty institution counts as none. */
  lemma BeneficiaryCommitmentBinds(p: Payload, q: Payload)
    requires BeneficiaryPreimage(p) == BeneficiaryPreimage(q)
    ensures p.payment.paymentId == q.payment.paymentId
    ensures p.data.beneficiaryName == q.data.beneficiaryName && p.data.beneficiaryAccount == q.data.beneficiaryAccount
    ensures NonEmpty(p.data.beneficiaryInstitution) == NonEmpty(q.data.beneficiaryInstitution)
  {
    var f, g := BeneficiaryValue(p.data).fields, BeneficiaryValue(q.data).fields;
    PartyPreimageBinds(COMMITMENT_DOMAIN + ":beneficiary:", p.payment.paymentId, f, q.payment.paymentId, g);
    assert f[0] == g[0] && f[1] == g[1] && f[2] == g[2];
  }

  /** Of built payloads the two party commitments together bind the payment id and all party data. */
  lemma PartyCommitmentsBindBuiltData(c: Canonicalizer, p: Payload, q: Payload)
    requires IsBuilt(c, p) && IsBuilt(c, q)
    requires OriginatorPreimage(p) == OriginatorPreimage(q) && BeneficiaryPreimage(p) == BeneficiaryPreimage(q)
    ensures p.payment.paymentId == q.payment.paymentId && p.data == q.data
  {
    OriginatorCommitmentBinds(p, q);
    BeneficiaryCommitmentBinds(p, q);
  }

  /** The three kinds of commitments never share a preimage. */
  lemma CommitmentKindsAreSeparate(text: string, p: Payload, q: Payload)
    ensures PayloadPreimage(text) != OriginatorPreimage(p)
    ensures PayloadPreimage(text) != BeneficiaryPreimage(p)
    ensures OriginatorPreimage(p) != BeneficiaryPreimage(q)
  {
    var n := |COMMITMENT_DOMAIN|;
    assert PayloadPreimage(text)[n] == '\n';
    assert OriginatorPreimage(p)[n] == ':' && OriginatorPreimage(p)[n + 1] == 'o';
    assert BeneficiaryPreimage(p)[n] == ':';
    assert BeneficiaryPreimage(q)[n] == ':' && BeneficiaryPreimage(q)[n + 1] == 'b';
  }

  /** `travelRuleEncryptionAad`. */
  function EncryptionAad(businessId: string, paymentRecordId: string, payloadCommitment: string): string {
    ENCRYPTION_DOMAIN + ":" + businessId + ":" + paymentRecordId + ":" + Lower(payloadCommitment)
  }

  /** For colon-free ids the additional data binds both ids and the commitment, up to hexadecimal case. */
  lemma AadIsInjective(b: string, r: string, c: string, b': string, r': string, c': string)
    requires ':' !in b && ':' !in b' && ':' !in r && ':' !in r'
    ensures EncryptionAad(b, r, c) == EncryptionAad(b', r', c') <==> b == b' && r == r' && Lower(c) == Lower(c')
  {
    if EncryptionAad(b, r, c) == EncryptionAad(b', r', c') {
      var x, y := r + ":" + Lower(c), r' + ":" + Lower(c');
      assert EncryptionAad(b, r, c) == (ENCRYPTION_DOMAIN + ":") + b + ":" + x;
      assert EncryptionAad(b', r', c') == (ENCRYPTION_DOMAIN + ":") + b' + ":" + y;
      PartyPreimageSplits(ENCRYPTION_DOMAIN + ":", b, x, b', y);
      SplitsAtColon(r, Lower(c), r', Lower(c'));
    }
  }

  lemma AadParts(domain: string, businessId: string, recordId: string, rest: string)
    ensures domain + ":" + businessId + ":" + recordId + ":" + rest
            == domain + ("" + ":" + (businessId + ":" + (recordId + ":" + rest)))
  {
    assert "" + ":" == ":";
    assert recordId + ":" + rest == recordId + (":" + rest);
    assert businessId + ":" + (recordId + ":" + rest) == businessId + ":" + recordId + ":" + rest;
    assert domain + (":" + (businessId + ":" + recordId + ":" + rest)) == domain + ":" + businessId + ":" + recordId + ":" + rest;
  }

  /** The additional data, read from the left: domain, business id, record id, commitment. */
  lemma AadSays(businessId: string, recordId: string, commitment: string)
    requires ':' !in businessId && ':' !in recordId
    ensures var aad := EncryptionAad(businessId, recordId, commitment);
            && "noblepay:travel-rule:aes-256-gcm:v1" <= aad
            && Split(aad[|"noblepay:travel-rule:aes-256-gcm:v1"|..], ':')
               == ["", businessId, recordId] + Split(Lower(commitment), ':')
  {
    var rest := Lower(commitment);
    var aad := EncryptionAad(businessId, recordId, commitment);
    AadParts(ENCRYPTION_DOMAIN, businessId, recordId, rest);
    SplitFirst("", businessId + ":" + (recordId + ":" + rest), ':');
    SplitFirst(businessId, recordId + ":" + rest, ':');
    SplitFirst(recordId, rest, ':');
  }

  // ---------------------------------------------------------------- challenges

  const PURPOSE_LINE: string := PURPOSE_PREFIX + "travel-rule"
  const PAYMENT_PREFIX: string := NAMESPACE + "payment:"
  const COMMITMENT_PREFIX: string := NAMESPACE + "travel-rule-commitment:"

  datatype Challenge = Challenge(
    address: string, nonce: string, issuedAt: string, expiresAt: string, challengeId: string,
    paymentId: string, payloadCommitment: string)

  const STATEMENT: string :=
    "Authorize NoblePay to encrypt" + " and transmit this payment's" + " committed IVMS101 Travel Rule" +
    " data to the configured" + " compliance operator."

  /** The address arrives checksummed. */
  function EnvelopeOf(c: Challenge): Envelope {
    Envelope(c.address, STATEMENT, c.nonce, c.issuedAt, c.expiresAt, c.challengeId)
  }

  function ResourceLines(c: Challenge): seq<string> {
    [PURPOSE_LINE, PAYMENT_PREFIX + Lower(c.paymentId), COMMITMENT_PREFIX + Lower(c.payloadCommitment)]
  }

  function TravelRuleLines(c: Challenge, party: RelyingParty): (lines: seq<string>)
    ensures |lines| == 16
  {
    EnvelopeLines(EnvelopeOf(c), party) + ResourceLines(c)
  }

  /** `buildTravelRuleChallengeMessage`. */
  function BuildTravelRuleChallengeMessage(c: Challenge, party: RelyingParty): string {
    Join(TravelRuleLines(c, party), '\n')
  }

  /** `isTravelRuleChallengeBound`. */
  predicate IsTravelRuleChallengeBound(message: string, paymentId: string, payloadCommitment: string, party: RelyingParty) {
    var lines := Split(message, '\n');
    && lines[0] == Salutation(party)
    && ("URI: " + party.origin) in lines
    && ("Chain ID: " + party.chainId) in lines
    && "Version: 1" in lines
    && WithPrefix(lines, RESOURCE_PREFIX) ==
       [PURPOSE_LINE, PAYMENT_PREFIX + Lower(paymentId), COMMITMENT_PREFIX + Lower(payloadCommitment)]
  }

  /** Any message that is bound names its relying party, and its resources are exactly the purpose, the payment and the commitment. */
  lemma TravelRuleBindsIdentified(message: string, paymentId: string, payloadCommitment: string, party: RelyingParty)
    ensures IsTravelRuleChallengeBound(message, paymentId, payloadCommitment, party) <==>
              && Identifies(Split(message, '\n'), party)
              && WithPrefix(Split(message, '\n'), "- urn:") ==
                 [("- urn:noblepay:" + "purpose:") + "travel-rule", ("- urn:noblepay:" + "payment:") + Lower(paymentId),
                  ("- urn:noblepay:" + "travel-rule-commitment:") + Lower(payloadCommitment)]
  {
  }

  predicate TidyChallenge(c: Challenge, party: RelyingParty) {
    && OneWord(party.domain) && OneLine(party.origin) && OneLine(party.chainId)
    && OneWord(c.address) && OneLine(c.nonce) && OneLine(c.issuedAt) && OneLine(c.expiresAt) && OneLine(c.challengeId)
    && OneLine(c.paymentId) && OneLine(c.payloadCommitment)
  }

  lemma StatementIsTidy(c: Challenge, party: RelyingParty)
    requires TidyChallenge(c, party)
    ensures Tidy(EnvelopeOf(c), party)
  {
    assert OneLine("Authorize NoblePay to encrypt") && OneLine(" and transmit this payment's");
    assert OneLine(" committed IVMS101 Travel Rule") && OneLine(" data to the configured") && OneLine(" compliance operator.");
    assert STATEMENT[0] == 'A' && RESOURCE_PREFIX[0] == '-';
  }

  lemma TravelRuleMessageSplits(c: Challenge, party: RelyingParty)
    requires TidyChallenge(c, party)
    ensures Split(BuildTravelRuleChallengeMessage(c, party), '\n') == TravelRuleLines(c, party)
  {
    StatementIsTidy(c, party);
    EnvelopeLinesAreLines(EnvelopeOf(c), party);
    ResourceLinesAreLines(c);
    SplitJoin(TravelRuleLines(c, party), '\n');
  }

  /** What a wallet reads in a message: the labelled lines, and the purpose, payment and commitment as resources. */
  lemma TravelRuleMessageSays(c: Challenge, party: RelyingParty)
    requires TidyChallenge(c, party)
    ensures var lines := Split(BuildTravelRuleChallengeMessage(c, party), '\n');
            && EnvelopeSays(lines, Envelope(c.address, STATEMENT, c.nonce, c.issuedAt, c.expiresAt, c.challengeId), party)
            && lines[13..] ==
               [("- urn:noblepay:" + "purpose:") + "travel-rule", ("- urn:noblepay:" + "payment:") + Lower(c.paymentId),
                ("- urn:noblepay:" + "travel-rule-commitment:") + Lower(c.payloadCommitment)]
  {
    TravelRuleMessageSplits(c, party);
  }

  lemma ResourceLinesAreLines(c: Challenge)
    requires OneLine(c.paymentId) && OneLine(c.payloadCommitment)
    ensures forall i :: 0 <= i < 3 ==> OneLine(ResourceLines(c)[i])
  {
    WalletChallenge.LowerKeepsLines(c.paymentId);
    WalletChallenge.LowerKeepsLines(c.payloadCommitment);
    assert OneLine(NAMESPACE);
    assert OneLine(PURPOSE_LINE) && OneLine(PAYMENT_PREFIX) && OneLine(COMMITMENT_PREFIX);
  }

  lemma FilterMessage(c: Challenge, party: RelyingParty, prefix: string)
    requires TidyChallenge(c, party) && RESOURCE_PREFIX <= prefix
    ensures WithPrefix(TravelRuleLines(c, party), prefix) ==
            Matching(ResourceLines(c)[0], prefix) + Matching(ResourceLines(c)[1], prefix) + Matching(ResourceLines(c)[2], prefix)
  {
    var r := ResourceLines(c);
    StatementIsTidy(c, party);
    EnvelopeHasNoResources(EnvelopeOf(c), party, prefix);
    WithPrefixConcat(EnvelopeLines(EnvelopeOf(c), party), r, prefix);
    WithPrefixThree(r[0], r[1], r[2], prefix);
  }

  lemma ResourcesFound(c: Challenge, party: RelyingParty)
    requires TidyChallenge(c, party)
    ensures WithPrefix(TravelRuleLines(c, party), RESOURCE_PREFIX) == ResourceLines(c)
  {
    FilterMessage(c, party, RESOURCE_PREFIX);
    assert RESOURCE_PREFIX <= NAMESPACE;
    assert RESOURCE_PREFIX <= ResourceLines(c)[0] && RESOURCE_PREFIX <= ResourceLines(c)[1] && RESOURCE_PREFIX <= ResourceLines(c)[2];
  }

  lemma ResourcesAreOther(c: Challenge)
    ensures IsOther(STATEMENT) && forall i :: 0 <= i < |ResourceLines(c)| ==> IsOther(ResourceLines(c)[i])
  {
  }

  /** The three resource lines of a message are the expected ones exactly for its own payment and commitment. */
  lemma SameResources(c: Challenge, paymentId: string, payloadCommitment: string)
    ensures ResourceLines(c) == [PURPOSE_LINE, PAYMENT_PREFIX + Lower(paymentId), COMMITMENT_PREFIX + Lower(payloadCommitment)]
            <==> Lower(paymentId) == Lower(c.paymentId) && Lower(payloadCommitment) == Lower(c.payloadCommitment)
  {
    var wanted := [PURPOSE_LINE, PAYMENT_PREFIX + Lower(paymentId), COMMITMENT_PREFIX + Lower(payloadCommitment)];
    SameAfterPrefix(PAYMENT_PREFIX, Lower(paymentId), Lower(c.paymentId));
    SameAfterPrefix(COMMITMENT_PREFIX, Lower(payloadCommitment), Lower(c.payloadCommitment));
    if wanted == ResourceLines(c) {
      assert wanted[1] == ResourceLines(c)[1] && wanted[2] == ResourceLines(c)[2];
    }
  }

  /**
   * A Travel Rule message is bound for exactly the relying party, payment and commitment it was built with, up to
   * hexadecimal case.
   */
  lemma TravelRuleBindsExactly(c: Challenge, party: RelyingParty, paymentId: string, payloadCommitment: string, verifier: RelyingParty)
    requires TidyChallenge(c, party) && OneWord(verifier.origin)
    ensures IsTravelRuleChallengeBound(BuildTravelRuleChallengeMessage(c, party), paymentId, payloadCommitment, verifier) <==>
            && party == verifier
            && Lower(paymentId) == Lower(c.paymentId) && Lower(payloadCommitment) == Lower(c.payloadCommitment)
  {
    TravelRuleMessageSplits(c, party);
    ResourcesAreOther(c);
    WalletChallenge.EnvelopeIsBound(EnvelopeOf(c), ResourceLines(c), party);
    MessageNamesParty(EnvelopeOf(c), ResourceLines(c), party, verifier);
    ResourcesFound(c, party);
    SameResources(c, paymentId, payloadCommitment);
  }

  /** A message fixes every field of its challenge, up to the hexadecimal case of payment id and commitment. */
  lemma TravelRuleMessageIsInjective(c: Challenge, p: RelyingParty, d: Challenge, q: RelyingParty)
    requires TidyChallenge(c, p) && TidyChallenge(d, q)
    requires BuildTravelRuleChallengeMessage(c, p) == BuildTravelRuleChallengeMessage(d, q)
    ensures p == q && EnvelopeOf(c) == EnvelopeOf(d)
    ensures Lower(c.paymentId) == Lower(d.paymentId) && Lower(c.payloadCommitment) == Lower(d.payloadCommitment)
  {
    TravelRuleMessageSplits(c, p);
    TravelRuleMessageSplits(d, q);
    var l, m := TravelRuleLines(c, p), TravelRuleLines(d, q);
    assert EnvelopeLines(EnvelopeOf(c), p) == l[..13] == m[..13] == EnvelopeLines(EnvelopeOf(d), q);
    EnvelopeIsInjective(EnvelopeOf(c), p, EnvelopeOf(d), q);
    assert l[14] == m[14] && l[15] == m[15];
    SameAfterPrefix(PAYMENT_PREFIX, Lower(c.paymentId), Lower(d.paymentId));
    SameAfterPrefix(COMMITMENT_PREFIX, Lower(c.payloadCommitment), Lower(d.payloadCommitment));
  }

  // ---------------------------------------------------------------- separation from wallet challenges

  /** A Travel Rule message is never accepted as a registration. */
  lemma TravelRuleIsNeverRegistration(c: Challenge, party: RelyingParty, txHash: string, registrationCommitment: string)
    requires TidyChallenge(c, party)
    ensures !WalletChallenge.IsRegistrationChallengeBound(BuildTravelRuleChallengeMessage(c, party), txHash, registrationCommitment)
  {
    TravelRuleMessageSplits(c, party);
    FilterMessage(c, party, PURPOSE_PREFIX);
    assert PURPOSE_PREFIX <= PURPOSE_LINE;
    assert "travel-rule"[0] == 't' && "registration"[0] == 'r';
    SameAfterPrefix(PURPOSE_PREFIX, "travel-rule", "registration");
    assert WithPrefix(TravelRuleLines(c, party), PURPOSE_PREFIX)[0] == PURPOSE_LINE;
  }

  /** No wallet challenge is ever accepted as a Travel Rule authorization. */
  lemma WalletMessageIsNeverTravelRule(
    c: WalletChallenge.Challenge, party: RelyingParty, paymentId: string, payloadCommitment: string, verifier: RelyingParty)
    requires WalletChallenge.TidyChallenge(c, party)
    ensures !IsTravelRuleChallengeBound(Join(WalletChallenge.WalletLines(c, party), '\n'), paymentId, payloadCommitment, verifier)
  {
    WalletChallenge.WalletMessageSplits(c, party);
    WalletChallenge.FilterMessage(c, party, RESOURCE_PREFIX);
    assert RESOURCE_PREFIX <= NAMESPACE <= PURPOSE_PREFIX;
    var first := WalletChallenge.PurposeLine(c);
    assert RESOURCE_PREFIX <= first;
    assert WithPrefix(WalletChallenge.WalletLines(c, party), RESOURCE_PREFIX)[0] == first;
    var name := WalletChallenge.PurposeName(c.purpose);
    assert name[0] == 'a' || name[0] == 'r';
    assert "travel-rule"[0] == 't';
    SameAfterPrefix(PURPOSE_PREFIX, name, "travel-rule");
  }

  /**
   * The wallet recogniser itself does not separate purposes: it accepts a Travel Rule message exactly for the relying party
   * the message was built for. At sign-in it is the purpose of the challenge row that keeps the two apart.
   */
  lemma WalletRecogniserAcceptsTravelRule(c: Challenge, party: RelyingParty, verifier: RelyingParty)
    requires TidyChallenge(c, party) && OneWord(verifier.origin)
    ensures WalletChallenge.IsWalletChallengeBound(BuildTravelRuleChallengeMessage(c, party), verifier) <==> party == verifier
  {
    TravelRuleMessageSplits(c, party);
    ResourcesAreOther(c);
    WalletChallenge.EnvelopeIsBound(EnvelopeOf(c), ResourceLines(c), party);
    MessageNamesParty(EnvelopeOf(c), ResourceLines(c), party, verifier);
  }
}
