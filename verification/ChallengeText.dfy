/** The thirteen lines every signed challenge begins with, in the shape of ERC-4361 "Message Format". */
module ChallengeText {
  datatype RelyingParty = RelyingParty(origin: string, domain: string, chainId: string)

  /** Fields shared by all challenges; dates arrive already printed by `toISOString`. */
  datatype Envelope = Envelope(
    address: string, statement: string, nonce: string, issuedAt: string, expiresAt: string, challengeId: string)

  const RESOURCE_PREFIX: string := "- urn:"
  const NAMESPACE: string := "- urn:noblepay:"
  const PURPOSE_PREFIX: string := NAMESPACE + "purpose:"

  // Longer texts are written in pieces: the verifier sees that a literal has no line break only up to some thirty characters.
  const WANTS: string := " wants you to sign in"
  const ACCOUNT: string := " with your Ethereum account:"

  function Salutation(party: RelyingParty): string {
    party.domain + WANTS + ACCOUNT
  }

  function EnvelopeLines(e: Envelope, party: RelyingParty): (lines: seq<string>)
    ensures |lines| == 13
  {
    [
      Salutation(party),
      e.address,
      "",
      e.statement,
      "",
      "URI: " + party.origin,
      "Version: 1",
      "Chain ID: " + party.chainId,
      "Nonce: " + e.nonce,
      "Issued At: " + e.issuedAt,
      "Expiration Time: " + e.expiresAt,
      "Request ID: " + e.challengeId,
      "Resources:"
    ]
  }

  /** The first thirteen lines say what they are labelled with, line by line. */
  ghost predicate EnvelopeSays(lines: seq<string>, e: Envelope, party: RelyingParty) {
    && |lines| >= 13
    && lines[0] == party.domain + " wants you to sign in" + " with your Ethereum account:"
    && lines[1] == e.address && lines[2] == "" && lines[3] == e.statement && lines[4] == ""
    && lines[5] == "URI: " + party.origin && lines[6] == "Version: 1" && lines[7] == "Chain ID: " + party.chainId
    && lines[8] == "Nonce: " + e.nonce
    && lines[9] == "Issued At: " + e.issuedAt && lines[10] == "Expiration Time: " + e.expiresAt
    && lines[11] == "Request ID: " + e.challengeId && lines[12] == "Resources:"
  }

  /** What every recogniser looks for in the lines of any message at all: host, origin, chain and version. */
  ghost predicate Identifies(lines: seq<string>, party: RelyingParty) {
    && lines != [] && lines[0] == party.domain + " wants you to sign in" + " with your Ethereum account:"
    && (exists i :: 0 <= i < |lines| && lines[i] == "URI: " + party.origin)
    && (exists i :: 0 <= i < |lines| && lines[i] == "Chain ID: " + party.chainId)
    && (exists i :: 0 <= i < |lines| && lines[i] == "Version: 1")
  }

  predicate OneLine(s: string) {
    '\n' !in s
  }

  /** Addresses and hosts: a single line without blanks. */
  predicate OneWord(s: string) {
    OneLine(s) && ' ' !in s
  }

  /** What the callers guarantee: no field breaks the line structure. */
  predicate Tidy(e: Envelope, party: RelyingParty) {
    && OneWord(party.domain) && OneLine(party.origin) && OneLine(party.chainId)
    && OneWord(e.address) && OneLine(e.statement) && !(RESOURCE_PREFIX <= e.statement)
    && OneLine(e.nonce) && OneLine(e.issuedAt) && OneLine(e.expiresAt) && OneLine(e.challengeId)
  }

  /** `lines.filter((line) => line.startsWith(prefix))`. */
  function WithPrefix(lines: seq<string>, prefix: string): seq<string> {
    if lines == [] then []
    else Matching(lines[0], prefix) + WithPrefix(lines[1..], prefix)
  }

  function Matching(line: string, prefix: string): seq<string> {
    if prefix <= line then [line] else []
  }

  lemma Associates(x: seq<string>, y: seq<string>, z: seq<string>)
    ensures x + (y + z) == x + y + z
  {
  }

  lemma {:induction false} WithPrefixConcat(a: seq<string>, b: seq<string>, prefix: string)
    ensures WithPrefix(a + b, prefix) == WithPrefix(a, prefix) + WithPrefix(b, prefix)
  {
    if a == [] {
      assert a + b == b;
    } else {
      WithPrefixConcat(a[1..], b, prefix);
      assert (a + b)[0] == a[0] && (a + b)[1..] == a[1..] + b;
      Associates(Matching(a[0], prefix), WithPrefix(a[1..], prefix), WithPrefix(b, prefix));
    }
  }

  lemma WithPrefixOne(line: string, prefix: string)
    ensures WithPrefix([line], prefix) == Matching(line, prefix)
  {
  }

  lemma WithPrefixThree(x: string, y: string, z: string, prefix: string)
    ensures WithPrefix([x, y, z], prefix) == Matching(x, prefix) + Matching(y, prefix) + Matching(z, prefix)
  {
    assert [x, y, z] == [x] + [y] + [z];
    WithPrefixConcat([x] + [y], [z], prefix);
    WithPrefixConcat([x], [y], prefix);
    WithPrefixOne(x, prefix);
    WithPrefixOne(y, prefix);
    WithPrefixOne(z, prefix);
  }

  lemma {:induction false} NoneWithPrefix(lines: seq<string>, prefix: string)
    requires forall i :: 0 <= i < |lines| ==> !(prefix <= lines[i])
    ensures WithPrefix(lines, prefix) == []
  {
    if lines != [] {
      NoneWithPrefix(lines[1..], prefix);
    }
  }

  /** Two texts that differ at one position of their fixed parts are not prefixes of each other. */
  lemma NotAPrefix(fixed: string, tail: string, prefix: string, i: nat)
    requires i < |fixed| && i < |prefix| && fixed[i] != prefix[i]
    ensures !(prefix <= fixed + tail)
  {
  }

  /** No line of the envelope is a resource, whatever the fields are. */
  lemma EnvelopeHasNoResources(e: Envelope, party: RelyingParty, prefix: string)
    requires Tidy(e, party) && RESOURCE_PREFIX <= prefix
    ensures WithPrefix(EnvelopeLines(e, party), prefix) == []
  {
    var lines := EnvelopeLines(e, party);
    forall i | 0 <= i < |lines|
      ensures !(prefix <= lines[i])
    {
      NotAResource(e, party, i);
      PrefixTransitive(RESOURCE_PREFIX, prefix, lines[i]);
    }
    NoneWithPrefix(lines, prefix);
  }

  lemma PrefixTransitive(a: string, b: string, c: string)
    ensures a <= b && b <= c ==> a <= c
  {
  }

  lemma SalutationIsNoResource(party: RelyingParty)
    requires OneWord(party.domain)
    ensures !(RESOURCE_PREFIX <= Salutation(party))
  {
    var line := Salutation(party);
    assert RESOURCE_PREFIX[0] == '-' && RESOURCE_PREFIX[1] == ' ' && RESOURCE_PREFIX[2] == 'u';
    assert WANTS[0] == ' ' && WANTS[1] == 'w';
    assert line == party.domain + (WANTS + ACCOUNT);
    if |party.domain| == 1 {
      assert line[2] == WANTS[1];
    } else if |party.domain| > 1 {
      assert line[1] == party.domain[1];
    } else {
      assert line[0] == WANTS[0];
    }
  }

  lemma AddressIsNoResource(address: string)
    requires OneWord(address)
    ensures !(RESOURCE_PREFIX <= address)
  {
    assert RESOURCE_PREFIX[1] == ' ';
    if |address| > 1 {
      assert address[1] in address;
    }
  }

  lemma NotAResource(e: Envelope, party: RelyingParty, i: nat)
    requires Tidy(e, party) && i < 13
    ensures !(RESOURCE_PREFIX <= EnvelopeLines(e, party)[i])
  {
    assert RESOURCE_PREFIX[0] == '-';
    SalutationIsNoResource(party);
    AddressIsNoResource(e.address);
  }

  lemma EnvelopeLinesAreLines(e: Envelope, party: RelyingParty)
    requires Tidy(e, party)
    ensures forall i :: 0 <= i < 13 ==> OneLine(EnvelopeLines(e, party)[i])
  {
    assert OneLine(WANTS) && OneLine(ACCOUNT);
    assert OneLine("URI: ") && OneLine("Version: 1") && OneLine("Chain ID: ") && OneLine("Nonce: ") && OneLine("Issued At: ");
    assert OneLine("Expiration Time: ") && OneLine("Request ID: ") && OneLine("Resources:");
  }

  /** Equal envelopes come from equal fields. */
  lemma EnvelopeIsInjective(e: Envelope, p: RelyingParty, f: Envelope, q: RelyingParty)
    requires EnvelopeLines(e, p) == EnvelopeLines(f, q)
    ensures e == f && p == q
  {
    var l, m := EnvelopeLines(e, p), EnvelopeLines(f, q);
    SameAfterPrefix("URI: ", p.origin, q.origin);
    SameAfterPrefix("Chain ID: ", p.chainId, q.chainId);
    SameAfterPrefix("Nonce: ", e.nonce, f.nonce);
    SameAfterPrefix("Issued At: ", e.issuedAt, f.issuedAt);
    SameAfterPrefix("Expiration Time: ", e.expiresAt, f.expiresAt);
    SameAfterPrefix("Request ID: ", e.challengeId, f.challengeId);
    SameBeforeSuffix(p.domain + WANTS, q.domain + WANTS, ACCOUNT);
    SameBeforeSuffix(p.domain, q.domain, WANTS);
    assert l[0] == m[0] && l[1] == m[1] && l[3] == m[3] && l[5] == m[5] && l[7] == m[7] && l[8] == m[8];
    assert l[9] == m[9] && l[10] == m[10] && l[11] == m[11];
  }

  lemma SameAfterPrefix(prefix: string, a: string, b: string)
    ensures prefix + a == prefix + b <==> a == b
  {
    if prefix + a == prefix + b {
      assert a == (prefix + a)[|prefix|..] == (prefix + b)[|prefix|..] == b;
    }
  }

  lemma SameBeforeSuffix(a: string, b: string, suffix: string)
    ensures a + suffix == b + suffix <==> a == b
  {
    if a + suffix == b + suffix {
      assert |a| == |b|;
      assert a == (a + suffix)[..|a|] == (b + suffix)[..|b|] == b;
    }
  }

  // ---------------------------------------------------------------- lines that name the relying party

  /** A line whose first character is neither U nor C: no origin line and no chain line. */
  predicate IsOther(line: string) {
    line != "" ==> line[0] != 'U' && line[0] != 'C'
  }

  /** The salutation is no origin line for an origin without blanks, and never a chain line. */
  lemma SalutationIsNeither(party: RelyingParty, x: string)
    requires OneWord(party.domain)
    ensures OneWord(x) ==> Salutation(party) != "URI: " + x
    ensures Salutation(party) != "Chain ID: " + x
  {
    var line := Salutation(party);
    var n := |party.domain|;
    assert line == party.domain + (WANTS + ACCOUNT);
    assert WANTS[0] == ' ' && WANTS[1] == 'w' && WANTS[6] == ' ';
    assert line[n] == WANTS[0] && line[n + 1] == WANTS[1] && line[n + 6] == WANTS[6];
    if line == "URI: " + x {
      assert ("URI: " + x)[4] == ' ' && "URI: "[n..] != "";
      assert n == 4;
      assert x[5] == ("URI: " + x)[10] == ' ';
      assert x[5] in x;
    }
    assert ("Chain ID: " + x)[5] == ' ' && ("Chain ID: " + x)[6] == 'I';
  }

  lemma AddressIsNeither(address: string, x: string)
    requires OneWord(address)
    ensures address != "URI: " + x && address != "Chain ID: " + x
  {
  }

  lemma OtherLines(e: Envelope, party: RelyingParty)
    requires IsOther(e.statement)
    ensures var l := EnvelopeLines(e, party);
            && IsOther(l[2]) && IsOther(l[3]) && IsOther(l[4]) && IsOther(l[6])
            && IsOther(l[8]) && IsOther(l[9]) && IsOther(l[10]) && IsOther(l[11]) && IsOther(l[12])
  {
  }

  lemma OtherIsNeither(line: string, x: string)
    requires IsOther(line)
    ensures line != "URI: " + x && line != "Chain ID: " + x
  {
  }

  /** One line of a message is the origin line or the chain line only at its place. */
  lemma LineNames(e: Envelope, party: RelyingParty, i: nat, x: string)
    requires OneWord(party.domain) && OneWord(e.address) && IsOther(e.statement) && i < 13
    ensures OneWord(x) && EnvelopeLines(e, party)[i] == "URI: " + x ==> x == party.origin
    ensures EnvelopeLines(e, party)[i] == "Chain ID: " + x ==> x == party.chainId
  {
    SalutationIsNeither(party, x);
    AddressIsNeither(e.address, x);
    OtherLines(e, party);
    SameAfterPrefix("URI: ", x, party.origin);
    SameAfterPrefix("Chain ID: ", x, party.chainId);
    assert ("URI: " + x)[0] == 'U' && ("Chain ID: " + x)[0] == 'C';
    if i != 0 && i != 1 && i != 5 && i != 7 {
      OtherIsNeither(EnvelopeLines(e, party)[i], x);
    }
  }

  /** A message names exactly one origin and one chain, and its salutation exactly one host. */
  lemma MessageNamesParty(e: Envelope, rest: seq<string>, p: RelyingParty, q: RelyingParty)
    requires OneWord(p.domain) && OneWord(e.address) && IsOther(e.statement)
    requires OneWord(q.origin) && forall i :: 0 <= i < |rest| ==> IsOther(rest[i])
    ensures var lines := EnvelopeLines(e, p) + rest;
            && (lines[0] == Salutation(q) <==> p.domain == q.domain)
            && (("URI: " + q.origin) in lines <==> p.origin == q.origin)
            && (("Chain ID: " + q.chainId) in lines <==> p.chainId == q.chainId)
  {
    var head := EnvelopeLines(e, p);
    var lines := head + rest;
    SameBeforeSuffix(p.domain + WANTS, q.domain + WANTS, ACCOUNT);
    SameBeforeSuffix(p.domain, q.domain, WANTS);
    assert lines[5] == head[5] && lines[7] == head[7];
    if ("URI: " + q.origin) in lines {
      var i :| 0 <= i < |lines| && lines[i] == "URI: " + q.origin;
      if i < 13 {
        LineNames(e, p, i, q.origin);
      } else {
        OtherIsNeither(rest[i - 13], q.origin);
      }
    }
    if ("Chain ID: " + q.chainId) in lines {
      var i :| 0 <= i < |lines| && lines[i] == "Chain ID: " + q.chainId;
      if i < 13 {
        LineNames(e, p, i, q.chainId);
      } else {
        OtherIsNeither(rest[i - 13], q.chainId);
      }
    }
  }
}
