/**
 * Wallet-challenge sessions (backend/src/routes/auth.ts): any number of `/verify` requests race on
 * challenge rows that are consumed by one conditional update.
 *
 * Between two awaits a handler runs undisturbed, so a handler is a sequence of segments, one event
 * each. A run is any sequence of events: segments of any requests, database updates, challenge
 * creation, consumption by other routes, and failures at any await. Clock readings are part of the
 * events and are not assumed to be ordered.
 */
module ChallengeSessions {
  import opened Wrappers
  import opened Text
  import opened ChallengeText
  import opened WalletChallenge
  import opened RegistryAuthorization

  datatype RowPurpose = AuthenticationRow | RegistrationRow | TravelRuleRow

  datatype Row = Row(address: string, message: string, purpose: RowPurpose, expiresAt: int, usedAt: Option<int>)

  datatype Credentials = Credentials(address: string, challengeId: string, signature: string)

  datatype Role = SuperAdmin | Admin

  datatype Session = Session(request: nat, credentials: Credentials, businessId: string, tier: Tier, role: Role)

  datatype Outcome =
    | Minted(session: Session)
    | InvalidChallenge
    | WrongPurpose
    | InvalidSignature
    | NotEligible
    | BusinessInactive
    | AlreadyUsed
    | Unavailable

  /** Where a `/verify` request stands: the await it is suspended at, with the locals that are still needed. */
  datatype Progress =
    | Loading(credentials: Credentials)
    | CheckingSignature(credentials: Credentials, row: Row)
    | FindingBusiness(credentials: Credentials, row: Row)
    | ReadingRegistry(credentials: Credentials, row: Row, businessId: string)
    | Consuming(credentials: Credentials, row: Row, businessId: string, current: Authorization, guard: int)
    | Counted(credentials: Credentials, row: Row, businessId: string, current: Authorization, guard: int, count: nat)
    | Done(outcome: Outcome)

  /** Answers given to requests, in the order they were given. */
  datatype Answer =
    | SignatureSaid(request: nat, address: string, message: string, signature: string, valid: bool)
    | RegistrySaid(request: nat, address: string, current: Authorization, readAt: int)

  datatype State = State(
    table: map<string, Row>, requests: map<nat, Progress>, sessions: seq<Session>, log: seq<Answer>)

  datatype Event =
    | Create(id: string, row: Row)
    | ConsumeElsewhere(id: string, at: int)
    | Begin(request: nat, credentials: Credentials)
    | Load(request: nat, now: int)
    | SignatureAnswer(request: nat, valid: bool)
    | BusinessAnswer(request: nat, businessId: Option<string>)
    | RegistryAnswer(request: nat, current: Authorization, now: int)
    | Update(request: nat)
    | Finish(request: nat)
    | Fail(request: nat)

  const EMPTY: State := State(map[], map[], [], [])

  function RoleOf(current: Authorization): Role {
    if current.isAdmin then SuperAdmin else Admin
  }

  /** The row is usable by these credentials at time `now`. */
  predicate Usable(row: Row, credentials: Credentials, party: RelyingParty, now: int) {
    && row.usedAt.None?
    && row.expiresAt > now
    && Lower(row.address) == Lower(credentials.address)
    && IsWalletChallengeBound(row.message, party)
  }

  function Move(s: State, request: nat, progress: Progress): State {
    s.(requests := s.requests[request := progress])
  }

  /** `updateMany` with its guard: unused and unexpired at the guard time. */
  predicate GuardHolds(s: State, id: string, guard: int) {
    id in s.table && s.table[id].usedAt.None? && s.table[id].expiresAt > guard
  }

  /** One event. An event that is not possible in a state leaves it as it is. */
  function Step(s: State, e: Event, party: RelyingParty): State {
    match e
    case Create(id, row) =>
      if id in s.table || row.usedAt.Some? then s else s.(table := s.table[id := row])
    case ConsumeElsewhere(id, at) =>
      if id in s.table && s.table[id].usedAt.None? then s.(table := s.table[id := s.table[id].(usedAt := Some(at))]) else s
    case Begin(r, c) =>
      if r in s.requests then s else Move(s, r, Loading(c))
    case _ =>
      if e.request !in s.requests then s else Continue(s, e, e.request, s.requests[e.request], party)
  }

  function Continue(s: State, e: Event, r: nat, p: Progress, party: RelyingParty): State {
    match (e, p)
    case (Load(_, now), Loading(c)) =>
      if c.challengeId !in s.table || !Usable(s.table[c.challengeId], c, party, now) then Move(s, r, Done(InvalidChallenge))
      else if !s.table[c.challengeId].purpose.AuthenticationRow? then Move(s, r, Done(WrongPurpose))
      else Move(s, r, CheckingSignature(c, s.table[c.challengeId]))
    case (SignatureAnswer(_, valid), CheckingSignature(c, row)) =>
      Move(s, r, if valid then FindingBusiness(c, row) else Done(InvalidSignature))
      .(log := s.log + [SignatureSaid(r, c.address, row.message, c.signature, valid)])
    case (BusinessAnswer(_, found), FindingBusiness(c, row)) =>
      Move(s, r, if found.Some? then ReadingRegistry(c, row, found.value) else Done(NotEligible))
    case (RegistryAnswer(_, current, now), ReadingRegistry(c, row, business)) =>
      Move(s, r, if current.active then Consuming(c, row, business, current, now) else Done(BusinessInactive))
      .(log := s.log + [RegistrySaid(r, c.address, current, now)])
    case (Update(_), Consuming(c, row, business, current, guard)) =>
      if GuardHolds(s, c.challengeId, guard) then
        Move(s, r, Counted(c, row, business, current, guard, 1))
        .(table := s.table[c.challengeId := s.table[c.challengeId].(usedAt := Some(guard))])
      else Move(s, r, Counted(c, row, business, current, guard, 0))
    case (Finish(_), Counted(c, row, business, current, guard, count)) =>
      if count != 1 then Move(s, r, Done(AlreadyUsed))
      else
        var session := Session(r, c, business, current.tier, RoleOf(current));
        Move(s, r, Done(Minted(session))).(sessions := s.sessions + [session])
    case (Fail(_), _) =>
      if p.Done? then s else Move(s, r, Done(Unavailable))
    case _ => s
  }

  function Run(s: State, events: seq<Event>, party: RelyingParty): State
    decreases |events|
  {
    if events == [] then s else Run(Step(s, events[0], party), events[1..], party)
  }

  // ---------------------------------------------------------------- the invariant

  /** The request has won its challenge: its update counted one row. */
  predicate Won(p: Progress, id: string) {
    || (p.Counted? && p.count == 1 && p.credentials.challengeId == id)
    || (p.Done? && p.outcome.Minted? && p.outcome.session.credentials.challengeId == id)
  }

  /** The row a request copied is still the table's row, except that it may be used by now. */
  predicate CopyOf(s: State, c: Credentials, row: Row) {
    && c.challengeId in s.table
    && row == s.table[c.challengeId].(usedAt := None)
    && row.purpose.AuthenticationRow? && Lower(row.address) == Lower(c.address)
  }

  predicate SignatureBacked(s: State, r: nat, c: Credentials, row: Row) {
    SignatureSaid(r, c.address, row.message, c.signature, true) in s.log
  }

  predicate RegistryBacked(s: State, r: nat, c: Credentials, current: Authorization, guard: int) {
    current.active && RegistrySaid(r, c.address, current, guard) in s.log
  }

  ghost predicate Backed(s: State, r: nat, p: Progress, party: RelyingParty) {
    match p
    case Loading(_) => true
    case CheckingSignature(c, row) => CopyOf(s, c, row) && IsWalletChallengeBound(row.message, party)
    case FindingBusiness(c, row) =>
      CopyOf(s, c, row) && IsWalletChallengeBound(row.message, party) && SignatureBacked(s, r, c, row)
    case ReadingRegistry(c, row, _) =>
      CopyOf(s, c, row) && IsWalletChallengeBound(row.message, party) && SignatureBacked(s, r, c, row)
    case Consuming(c, row, _, current, guard) =>
      CopyOf(s, c, row) && IsWalletChallengeBound(row.message, party) && SignatureBacked(s, r, c, row) &&
      RegistryBacked(s, r, c, current, guard)
    case Counted(c, row, _, current, guard, count) =>
      CopyOf(s, c, row) && IsWalletChallengeBound(row.message, party) && SignatureBacked(s, r, c, row) &&
      RegistryBacked(s, r, c, current, guard) && (count == 1 ==> guard < row.expiresAt)
    case Done(outcome) => outcome.Minted? ==> outcome.session.request == r && Justified(s, outcome.session, party)
  }

  /**
   * What stands behind a session: an authentication challenge for the same address and this relying
   * party, a valid signature on its stored message, and an active registry snapshot, both answered
   * inside the session's own request, with tier and role taken from that snapshot and the
   * consumption guard, taken with the snapshot, before the challenge's expiry.
   */
  ghost predicate Justified(s: State, w: Session, party: RelyingParty) {
    exists row, current, guard ::
      && CopyOf(s, w.credentials, row) && IsWalletChallengeBound(row.message, party)
      && SignatureBacked(s, w.request, w.credentials, row)
      && RegistryBacked(s, w.request, w.credentials, current, guard)
      && guard < row.expiresAt
      && w.tier == current.tier && (w.role.SuperAdmin? <==> current.isAdmin)
  }

  ghost predicate AllBacked(s: State, party: RelyingParty) {
    forall r :: r in s.requests ==> Backed(s, r, s.requests[r], party)
  }

  /** Winners have used their challenge, and each challenge has at most one. */
  ghost predicate WinnersMatch(s: State) {
    && (forall r, id :: r in s.requests && Won(s.requests[r], id) ==> id in s.table && s.table[id].usedAt.Some?)
    && (forall r, q, id :: r in s.requests && q in s.requests && Won(s.requests[r], id) && Won(s.requests[q], id) ==> r == q)
  }

  /** Every session is the outcome of its request, and no request has two. */
  ghost predicate SessionsMatch(s: State) {
    && (forall i :: 0 <= i < |s.sessions| ==>
          s.sessions[i].request in s.requests && s.requests[s.sessions[i].request] == Done(Minted(s.sessions[i])))
    && (forall i, j :: 0 <= i < j < |s.sessions| ==> s.sessions[i].request != s.sessions[j].request)
  }

  ghost predicate Invariant(s: State, party: RelyingParty) {
    AllBacked(s, party) && WinnersMatch(s) && SessionsMatch(s)
  }

  /** Rows never change except from unused to used, and answers are never forgotten. */
  ghost predicate Grows(s: State, t: State) {
    && (forall id :: id in s.table ==> id in t.table && t.table[id].(usedAt := None) == s.table[id].(usedAt := None))
    && (forall id :: id in s.table && s.table[id].usedAt.Some? ==> t.table[id].usedAt.Some?)
    && (forall a :: a in s.log ==> a in t.log)
  }

  lemma BackedKeeps(s: State, t: State, r: nat, p: Progress, party: RelyingParty)
    requires Grows(s, t) && Backed(s, r, p, party)
    ensures Backed(t, r, p, party)
  {
    if p.Done? && p.outcome.Minted? {
      var w := p.outcome.session;
      var row, current, guard :|
        && CopyOf(s, w.credentials, row) && IsWalletChallengeBound(row.message, party)
        && SignatureBacked(s, w.request, w.credentials, row)
        && RegistryBacked(s, w.request, w.credentials, current, guard)
        && guard < row.expiresAt
        && w.tier == current.tier && (w.role.SuperAdmin? <==> current.isAdmin);
      assert CopyOf(t, w.credentials, row) && SignatureBacked(t, w.request, w.credentials, row);
      assert RegistryBacked(t, w.request, w.credentials, current, guard);
    }
  }

  lemma StepGrows(s: State, e: Event, party: RelyingParty)
    ensures Grows(s, Step(s, e, party))
  {
  }

  /** Another route spends a row exactly once: an unused one from then on, with its time, and a used one keeps the time it has. */
  lemma ForeignConsumptionSpends(s: State, id: string, at: int, party: RelyingParty)
    requires id in s.table
    ensures var t := Step(s, ConsumeElsewhere(id, at), party);
            && t.requests == s.requests && t.sessions == s.sessions && t.table.Keys == s.table.Keys
            && t.table[id] == s.table[id].(usedAt := if s.table[id].usedAt.None? then Some(at) else s.table[id].usedAt)
            && forall other :: other in s.table && other != id ==> t.table[other] == s.table[other]
  {
  }

  /** The request an event belongs to is the only one that moves. */
  lemma OnlyOneMoves(s: State, e: Event, party: RelyingParty, r: nat)
    requires r in Step(s, e, party).requests
    ensures || (r in s.requests && Step(s, e, party).requests[r] == s.requests[r])
            || Step(s, e, party).requests[r].Loading?
            || (!e.Create? && !e.ConsumeElsewhere? && !e.Begin? && e.request == r && r in s.requests)
  {
  }

  lemma RequestIsBacked(s: State, e: Event, party: RelyingParty, r: nat)
    requires Invariant(s, party) && r in Step(s, e, party).requests
    ensures Backed(Step(s, e, party), r, Step(s, e, party).requests[r], party)
  {
    var t := Step(s, e, party);
    OnlyOneMoves(s, e, party, r);
    if r in s.requests && t.requests[r] == s.requests[r] {
      StepGrows(s, e, party);
      BackedKeeps(s, t, r, s.requests[r], party);
    } else if !t.requests[r].Loading? {
      MoveIsBacked(s, e, party);
    }
  }

  lemma StepBacks(s: State, e: Event, party: RelyingParty)
    requires Invariant(s, party)
    ensures AllBacked(Step(s, e, party), party)
  {
    forall r | r in Step(s, e, party).requests
      ensures Backed(Step(s, e, party), r, Step(s, e, party).requests[r], party)
    {
      RequestIsBacked(s, e, party, r);
    }
  }

  lemma MoveIsBacked(s: State, e: Event, party: RelyingParty)
    requires Invariant(s, party)
    requires !e.Create? && !e.ConsumeElsewhere? && !e.Begin? && e.request in s.requests
    ensures var t := Step(s, e, party);
            Backed(t, e.request, t.requests[e.request], party)
  {
    var r, t := e.request, Step(s, e, party);
    StepGrows(s, e, party);
    BackedKeeps(s, t, r, s.requests[r], party);
    if e.Finish? {
      if s.requests[r].Counted? && s.requests[r].count == 1 {
        FinishIsBacked(t, r, s.requests[r], party);
      }
    } else {
      ContinueIsBacked(s, e, r, s.requests[r], party);
    }
  }

  /** A request whose update counted one row has everything a session needs. */
  lemma FinishIsBacked(t: State, r: nat, p: Progress, party: RelyingParty)
    requires Backed(t, r, p, party) && p.Counted? && p.count == 1
    ensures Justified(t, Session(r, p.credentials, p.businessId, p.current.tier, RoleOf(p.current)), party)
  {
  }

  lemma ContinueIsBacked(s: State, e: Event, r: nat, p: Progress, party: RelyingParty)
    requires !e.Create? && !e.ConsumeElsewhere? && !e.Begin? && !e.Finish? && e.request == r
    requires r in s.requests && s.requests[r] == p && Backed(s, r, p, party)
    requires Backed(Continue(s, e, r, p, party), r, p, party)
    ensures var t := Continue(s, e, r, p, party);
            r in t.requests && Backed(t, r, t.requests[r], party)
  {
  }

  /** A request wins only by an update whose guard held, that is, on a row nobody has used. */
  lemma WinningNeedsTheGuard(s: State, e: Event, party: RelyingParty, r: nat, id: string)
    requires r in Step(s, e, party).requests && Won(Step(s, e, party).requests[r], id)
    ensures || (r in s.requests && Won(s.requests[r], id))
            || (e == Update(r) && id in s.table && s.table[id].usedAt.None? && Step(s, e, party).table[id].usedAt.Some?)
  {
  }

  lemma AllWinnersUse(s: State, e: Event, party: RelyingParty, t: State)
    requires WinnersMatch(s) && t == Step(s, e, party)
    ensures forall r, id :: r in t.requests && Won(t.requests[r], id) ==> id in t.table && t.table[id].usedAt.Some?
  {
    forall r, id | r in t.requests && Won(t.requests[r], id)
      ensures id in t.table && t.table[id].usedAt.Some?
    {
      WinnersUseTheirChallenge(s, e, party, r, id);
    }
  }

  lemma AllWinnersAreUnique(s: State, e: Event, party: RelyingParty, t: State)
    requires WinnersMatch(s) && t == Step(s, e, party)
    ensures forall r, q, id :: r in t.requests && q in t.requests && Won(t.requests[r], id) && Won(t.requests[q], id) ==> r == q
  {
    forall r, q, id | r in t.requests && q in t.requests && Won(t.requests[r], id) && Won(t.requests[q], id)
      ensures r == q
    {
      WinnersAreUnique(s, e, party, r, q, id);
    }
  }

  lemma StepKeepsWinners(s: State, e: Event, party: RelyingParty)
    requires WinnersMatch(s)
    ensures WinnersMatch(Step(s, e, party))
  {
    AllWinnersUse(s, e, party, Step(s, e, party));
    AllWinnersAreUnique(s, e, party, Step(s, e, party));
  }
  lemma StepKeepsInvariant(s: State, e: Event, party: RelyingParty)
    requires Invariant(s, party)
    ensures Invariant(Step(s, e, party), party)
  {
    StepBacks(s, e, party);
    StepKeepsWinners(s, e, party);
    StepKeepsSessions(s, e, party);
  }

  lemma WinnersUseTheirChallenge(s: State, e: Event, party: RelyingParty, r: nat, id: string)
    requires WinnersMatch(s)
    requires r in Step(s, e, party).requests && Won(Step(s, e, party).requests[r], id)
    ensures id in Step(s, e, party).table && Step(s, e, party).table[id].usedAt.Some?
  {
    WinningNeedsTheGuard(s, e, party, r, id);
    StepGrows(s, e, party);
  }

  lemma WinnersAreUnique(s: State, e: Event, party: RelyingParty, r: nat, q: nat, id: string)
    requires WinnersMatch(s)
    requires r in Step(s, e, party).requests && Won(Step(s, e, party).requests[r], id)
    requires q in Step(s, e, party).requests && Won(Step(s, e, party).requests[q], id)
    ensures r == q
  {
    WinningNeedsTheGuard(s, e, party, r, id);
    WinningNeedsTheGuard(s, e, party, q, id);
  }

  /** `t` has the sessions of `s`, and possibly one more, of a request that was still running in `s`. */
  predicate AddsItsOwn(s: State, t: State) {
    || t.sessions == s.sessions
    || (&& |t.sessions| == |s.sessions| + 1
        && (forall i :: 0 <= i < |s.sessions| ==> t.sessions[i] == s.sessions[i])
        && var w := t.sessions[|s.sessions|];
           && w.request in s.requests && !s.requests[w.request].Done?
           && w.request in t.requests && t.requests[w.request] == Done(Minted(w)))
  }

  lemma StepAddsItsOwn(s: State, e: Event, party: RelyingParty)
    ensures AddsItsOwn(s, Step(s, e, party))
    ensures forall r :: r in s.requests && s.requests[r].Done? ==>
              r in Step(s, e, party).requests && Step(s, e, party).requests[r] == s.requests[r]
  {
  }

  lemma AddingKeepsMatch(s: State, t: State)
    requires SessionsMatch(s) && AddsItsOwn(s, t)
    requires forall r :: r in s.requests && s.requests[r].Done? ==> r in t.requests && t.requests[r] == s.requests[r]
    ensures SessionsMatch(t)
  {
  }

  lemma StepKeepsSessions(s: State, e: Event, party: RelyingParty)
    requires SessionsMatch(s)
    ensures SessionsMatch(Step(s, e, party))
  {
    StepAddsItsOwn(s, e, party);
    AddingKeepsMatch(s, Step(s, e, party));
  }

  // ---------------------------------------------------------------- whole runs

  lemma {:induction false} RunKeepsInvariant(s: State, events: seq<Event>, party: RelyingParty)
    requires Invariant(s, party)
    ensures Invariant(Run(s, events, party), party)
    decreases |events|
  {
    if events != [] {
      StepKeepsInvariant(s, events[0], party);
      RunKeepsInvariant(Step(s, events[0], party), events[1..], party);
    }
  }

  /** In every run, each challenge mints at most one session, and every session is justified. */
  lemma ChallengesMintAtMostOneSession(events: seq<Event>, party: RelyingParty)
    ensures var s := Run(EMPTY, events, party);
            && (forall i, j :: 0 <= i < j < |s.sessions| ==>
                  s.sessions[i].credentials.challengeId != s.sessions[j].credentials.challengeId)
            && (forall i :: 0 <= i < |s.sessions| ==> Justified(s, s.sessions[i], party))
  {
    RunKeepsInvariant(EMPTY, events, party);
    var s := Run(EMPTY, events, party);
    forall i | 0 <= i < |s.sessions|
      ensures Justified(s, s.sessions[i], party) && Won(s.requests[s.sessions[i].request], s.sessions[i].credentials.challengeId)
    {
      assert Backed(s, s.sessions[i].request, s.requests[s.sessions[i].request], party);
    }
  }

  /** A challenge that is used, but not by a winning request, never mints a session in any continuation. */
  lemma {:induction false} SpentChallengesStayDead(s: State, events: seq<Event>, party: RelyingParty, id: string)
    requires Invariant(s, party)
    requires id in s.table && s.table[id].usedAt.Some?
    requires forall r :: r in s.requests ==> !Won(s.requests[r], id)
    ensures var t := Run(s, events, party);
            && id in t.table && t.table[id].usedAt.Some?
            && (forall r :: r in t.requests ==> !Won(t.requests[r], id))
            && (forall i :: 0 <= i < |t.sessions| ==> t.sessions[i].credentials.challengeId != id)
    decreases |events|
  {
    if events == [] {
      assert forall i :: 0 <= i < |s.sessions| ==> Won(s.requests[s.sessions[i].request], s.sessions[i].credentials.challengeId);
    } else {
      var u := Step(s, events[0], party);
      StepGrows(s, events[0], party);
      StepKeepsInvariant(s, events[0], party);
      forall r | r in u.requests
        ensures !Won(u.requests[r], id)
      {
        if Won(u.requests[r], id) {
          WinningNeedsTheGuard(s, events[0], party, r, id);
        }
      }
      SpentChallengesStayDead(u, events[1..], party, id);
    }
  }

  // ---------------------------------------------------------------- the handler without interference

  /** The outcome of one `/verify` request that nothing interferes with, as its handler reads top to bottom. */
  function Verdict(
    s: State, r: nat, c: Credentials, now: int, valid: bool, businessId: Option<string>, current: Authorization, readAt: int,
    party: RelyingParty) : Outcome
  {
    if c.challengeId !in s.table || !Usable(s.table[c.challengeId], c, party, now) then InvalidChallenge
    else if !s.table[c.challengeId].purpose.AuthenticationRow? then WrongPurpose
    else if !valid then InvalidSignature
    else if businessId.None? then NotEligible
    else if !current.active then BusinessInactive
    else if s.table[c.challengeId].expiresAt <= readAt then AlreadyUsed
    else Minted(Session(r, c, businessId.value, current.tier, RoleOf(current)))
  }

  /** Undisturbed, the segments compute exactly that outcome, and mint a session exactly when it says so. */
  lemma UndisturbedRequestGetsItsVerdict(
    s: State, r: nat, c: Credentials, now: int, valid: bool, businessId: Option<string>, current: Authorization, readAt: int,
    party: RelyingParty)
    requires r !in s.requests
    ensures var t := Run(s, Alone(r, c, now, valid, businessId, current, readAt), party);
            var verdict := Verdict(s, r, c, now, valid, businessId, current, readAt, party);
            && r in t.requests && t.requests[r] == Done(verdict)
            && t.sessions == s.sessions + (if verdict.Minted? then [verdict.session] else [])
  {
    var events := Alone(r, c, now, valid, businessId, current, readAt);
    var loaded := Run2(s, events, party);
    LoadPhase(s, r, c, now, party);
    if loaded.requests[r].Done? {
      RestIsIdle(loaded, r, events[2..], party);
    } else {
      AfterLoading(loaded, r, events[2..], party);
    }
  }

  lemma LoadPhase(s: State, r: nat, c: Credentials, now: int, party: RelyingParty)
    requires r !in s.requests
    ensures var t := Step(Step(s, Begin(r, c), party), Load(r, now), party);
            && t.table == s.table && t.sessions == s.sessions && r in t.requests
            && t.requests[r] ==
               (if c.challengeId !in s.table || !Usable(s.table[c.challengeId], c, party, now) then Done(InvalidChallenge)
                else if !s.table[c.challengeId].purpose.AuthenticationRow? then Done(WrongPurpose)
                else CheckingSignature(c, s.table[c.challengeId]))
  {
  }

  lemma AfterLoading(s: State, r: nat, events: seq<Event>, party: RelyingParty)
    requires r in s.requests && s.requests[r].CheckingSignature? && CopyOf(s, s.requests[r].credentials, s.requests[r].row)
    requires s.table[s.requests[r].credentials.challengeId].usedAt.None?
    requires |events| == 5 && forall i :: 0 <= i < 5 ==> IsSegment(events[i], r)
    requires events[0].SignatureAnswer? && events[1].BusinessAnswer? && events[2].RegistryAnswer? && events[3].Update? && events[4].Finish?
    ensures var t := Run(s, events, party);
            var outcome :=
              if !events[0].valid then InvalidSignature
              else if events[1].businessId.None? then NotEligible
              else if !events[2].current.active then BusinessInactive
              else if s.requests[r].row.expiresAt <= events[2].now then AlreadyUsed
              else Minted(Session(r, s.requests[r].credentials, events[1].businessId.value, events[2].current.tier,
                                  RoleOf(events[2].current)));
            && r in t.requests && t.requests[r] == Done(outcome)
            && t.sessions == s.sessions + (if outcome.Minted? then [outcome.session] else [])
  {
    var identified := Run2(s, events, party);
    assert IsSegment(events[0], r) && IsSegment(events[1], r) && IsSegment(events[2], r) && IsSegment(events[3], r) && IsSegment(events[4], r);
    if identified.requests[r].Done? {
      RestIsIdle(identified, r, events[2..], party);
    } else {
      var consumed := Run2(identified, events[2..], party);
      assert events[2..][2..] == [events[4]];
      RunOf(consumed, [events[4]], party);
    }
  }

  /** What it takes for a row to be loaded: unused, unexpired on this clock, for this address and party, and for authentication. */
  predicate Loadable(s: State, c: Credentials, now: int, party: RelyingParty) {
    && c.challengeId in s.table
    && var row := s.table[c.challengeId];
       && row.usedAt.None? && now < row.expiresAt && row.purpose == AuthenticationRow
       && Lower(row.address) == Lower(c.address) && IsWalletChallengeBound(row.message, party)
  }

  /** A request goes on to the signature check exactly with a loadable row, which it copies; otherwise it ends there. */
  lemma LoadsExactly(s: State, r: nat, c: Credentials, now: int, party: RelyingParty)
    requires r in s.requests && s.requests[r] == Loading(c)
    ensures var t := Step(s, Load(r, now), party);
            && r in t.requests && t.table == s.table
            && (t.requests[r].CheckingSignature? <==> Loadable(s, c, now, party))
            && (Loadable(s, c, now, party) ==> t.requests[r] == CheckingSignature(c, s.table[c.challengeId]))
            && (!Loadable(s, c, now, party) ==> t.requests[r] == Done(InvalidChallenge) || t.requests[r] == Done(WrongPurpose))
  {
  }

  /** Undisturbed, a request mints its session exactly with a loadable row, good answers, and a row that is unexpired to the end. */
  lemma UndisturbedRequestMintsExactly(
    s: State, r: nat, c: Credentials, now: int, valid: bool, businessId: Option<string>, current: Authorization, readAt: int,
    party: RelyingParty)
    requires r !in s.requests
    ensures var t := Run(s, Alone(r, c, now, valid, businessId, current, readAt), party);
            if Loadable(s, c, now, party) && valid && businessId.Some? && current.active && readAt < s.table[c.challengeId].expiresAt then
              t.sessions == s.sessions
                            + [Session(r, c, businessId.value, current.tier, if current.isAdmin then SuperAdmin else Admin)]
            else t.sessions == s.sessions
  {
    UndisturbedRequestGetsItsVerdict(s, r, c, now, valid, businessId, current, readAt, party);
  }

  /**
   * Sign-in works: a challenge built for this party and stored for its address, verified alone, in time and with good answers,
   * mints a session for its wallet.
   */
  lemma FreshChallengeSignsIn(
    s: State, challenge: WalletChallenge.Challenge, expiresAt: int, r: nat, c: Credentials, now: int, businessId: string,
    current: Authorization, readAt: int, party: RelyingParty)
    requires r !in s.requests && c.challengeId !in s.table && Lower(challenge.address) == Lower(c.address)
    requires challenge.purpose.Authentication? && TidyChallenge(challenge, party) && OneWord(party.origin)
    requires now < expiresAt && readAt < expiresAt && current.active
    ensures var row := Row(challenge.address, Join(WalletLines(challenge, party), '\n'), AuthenticationRow, expiresAt, None);
            var created := Step(s, Create(c.challengeId, row), party);
            Run(created, Alone(r, c, now, true, Some(businessId), current, readAt), party).sessions ==
            s.sessions + [Session(r, c, businessId, current.tier, if current.isAdmin then SuperAdmin else Admin)]
  {
    WalletBindsExactly(challenge, party, party);
    var row := Row(challenge.address, Join(WalletLines(challenge, party), '\n'), AuthenticationRow, expiresAt, None);
    var created := Step(s, Create(c.challengeId, row), party);
    UndisturbedRequestMintsExactly(created, r, c, now, true, Some(businessId), current, readAt, party);
  }

  lemma Run2(s: State, events: seq<Event>, party: RelyingParty) returns (t: State)
    requires |events| >= 2
    ensures t == Step(Step(s, events[0], party), events[1], party)
    ensures Run(s, events, party) == Run(t, events[2..], party)
  {
    t := Step(Step(s, events[0], party), events[1], party);
    RunOf(s, events, party);
    RunOf(Step(s, events[0], party), events[1..], party);
    assert events[1..][1..] == events[2..];
  }

  predicate IsSegment(e: Event, r: nat) {
    (e.Load? || e.SignatureAnswer? || e.BusinessAnswer? || e.RegistryAnswer? || e.Update? || e.Finish?) && e.request == r
  }

  lemma {:induction false} RestIsIdle(s: State, r: nat, events: seq<Event>, party: RelyingParty)
    requires r in s.requests && s.requests[r].Done?
    requires forall i :: 0 <= i < |events| ==> IsSegment(events[i], r)
    ensures Run(s, events, party) == s
    decreases |events|
  {
    if events != [] {
      assert IsSegment(events[0], r) && Step(s, events[0], party) == s;
      RestIsIdle(s, r, events[1..], party);
    }
  }

  lemma RunOf(s: State, events: seq<Event>, party: RelyingParty)
    requires events != []
    ensures Run(s, events, party) == Run(Step(s, events[0], party), events[1..], party)
  {
  }

  /** The events of one `/verify` request that runs to its end alone. */
  function Alone(r: nat, c: Credentials, now: int, valid: bool, businessId: Option<string>, current: Authorization, readAt: int): seq<Event> {
    [Begin(r, c), Load(r, now), SignatureAnswer(r, valid), BusinessAnswer(r, businessId), RegistryAnswer(r, current, readAt),
     Update(r), Finish(r)]
  }

  // ---------------------------------------------------------------- the service

  /**
   * The challenge table and the suspended requests of the service. Each method is one segment of the
   * `/challenge` or `/verify` handler, or one database update, and performs exactly its event.
   */
  class AuthService {
    const party: RelyingParty
    var table: map<string, Row>
    var requests: map<nat, Progress>
    var sessions: seq<Session>
    ghost var log: seq<Answer>

    ghost function Abs(): State
      reads this
    {
      State(table, requests, sessions, log)
    }

    constructor (party: RelyingParty)
      ensures Abs() == EMPTY && this.party == party
    {
      this.party := party;
      table, requests, sessions, log := map[], map[], [], [];
    }

    /** The insert at the end of `/challenge`; the id is the primary key. */
    method CreateChallenge(id: string, row: Row) returns (created: bool)
      modifies this
      ensures Abs() == Step(old(Abs()), Event.Create(id, row), party)
      ensures created <==> id !in old(table) && row.usedAt.None?
    {
      created := id !in table && row.usedAt.None?;
      if created {
        table := table[id := row];
      }
    }

    method BeginVerify(r: nat, credentials: Credentials)
      modifies this
      ensures Abs() == Step(old(Abs()), Event.Begin(r, credentials), party)
    {
      if r !in requests {
        requests := requests[r := Loading(credentials)];
      }
    }

    method ResumeWithChallenge(r: nat, now: int)
      modifies this
      ensures Abs() == Step(old(Abs()), Event.Load(r, now), party)
    {
      if r !in requests || !requests[r].Loading? { return; }
      var c := requests[r].credentials;
      if c.challengeId !in table {
        requests := requests[r := Done(InvalidChallenge)];
        return;
      }
      var challenge := table[c.challengeId];
      if || challenge.usedAt.Some?
         || challenge.expiresAt <= now
         || Lower(challenge.address) != Lower(c.address)
         || !IsWalletChallengeBound(challenge.message, party)
      {
        requests := requests[r := Done(InvalidChallenge)];
      } else if challenge.purpose != AuthenticationRow {
        requests := requests[r := Done(WrongPurpose)];
      } else {
        requests := requests[r := CheckingSignature(c, challenge)];
      }
    }

    method ResumeWithSignature(r: nat, valid: bool)
      modifies this
      ensures Abs() == Step(old(Abs()), Event.SignatureAnswer(r, valid), party)
    {
      if r !in requests || !requests[r].CheckingSignature? { return; }
      var c, challenge := requests[r].credentials, requests[r].row;
      log := log + [SignatureSaid(r, c.address, challenge.message, c.signature, valid)];
      if !valid {
        requests := requests[r := Done(InvalidSignature)];
        return;
      }
      requests := requests[r := FindingBusiness(c, challenge)];
    }

    method ResumeWithBusiness(r: nat, businessId: Option<string>)
      modifies this
      ensures Abs() == Step(old(Abs()), Event.BusinessAnswer(r, businessId), party)
    {
      if r !in requests || !requests[r].FindingBusiness? { return; }
      match businessId {
        case None => requests := requests[r := Done(NotEligible)];
        case Some(id) => requests := requests[r := ReadingRegistry(requests[r].credentials, requests[r].row, id)];
      }
    }

    /** Ends by issuing the conditional update; `now` is its `expiresAt: { gt: new Date() }` reading. */
    method ResumeWithRegistry(r: nat, current: Authorization, now: int)
      modifies this
      ensures Abs() == Step(old(Abs()), Event.RegistryAnswer(r, current, now), party)
    {
      if r !in requests || !requests[r].ReadingRegistry? { return; }
      var p := requests[r];
      log := log + [RegistrySaid(r, p.credentials.address, current, now)];
      if !current.active {
        requests := requests[r := Done(BusinessInactive)];
        return;
      }
      requests := requests[r := Consuming(p.credentials, p.row, p.businessId, current, now)];
    }

    /** The database side of `updateMany`: atomic, guarded, and answering with the number of rows changed. */
    method UpdateChallenge(r: nat)
      modifies this
      ensures Abs() == Step(old(Abs()), Event.Update(r), party)
    {
      if r !in requests || !requests[r].Consuming? { return; }
      var p := requests[r];
      var id := p.credentials.challengeId;
      var count := 0;
      if id in table && table[id].usedAt.None? && table[id].expiresAt > p.guard {
        table := table[id := table[id].(usedAt := Some(p.guard))];
        count := 1;
      }
      requests := requests[r := Counted(p.credentials, p.row, p.businessId, p.current, p.guard, count)];
    }

    method FinishVerify(r: nat)
      modifies this
      ensures Abs() == Step(old(Abs()), Event.Finish(r), party)
    {
      if r !in requests || !requests[r].Counted? { return; }
      var p := requests[r];
      if p.count != 1 {
        requests := requests[r := Done(AlreadyUsed)];
        return;
      }
      var role := if p.current.isAdmin then SuperAdmin else Admin;
      var session := Session(r, p.credentials, p.businessId, p.current.tier, role);
      sessions := sessions + [session];
      requests := requests[r := Done(Minted(session))];
    }

    /** Any awaited call may throw, or the process may stop, at any await. */
    method AbortVerify(r: nat)
      modifies this
      ensures Abs() == Step(old(Abs()), Event.Fail(r), party)
    {
      if r in requests && !requests[r].Done? {
        requests := requests[r := Done(Unavailable)];
      }
    }
  }
}
