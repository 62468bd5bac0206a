/** Settling, cancelling, refunding and recovering payments (`usePaymentLifecycle`, src/hooks/usePayment.ts). */
module PaymentLifecycle {
  import opened Wrappers
  import opened Text
  import opened Submissions
  import Json

  /** `PendingLifecycleReconciliation`. */
  datatype Pending = Pending(paymentId: string, txHash: string)

  datatype Config = Config(contractIsAddress: bool, clientAvailable: bool)

  predicate IsPending(p: Pending) {
    IsHexOf(p.paymentId, 64) && IsHexOf(p.txHash, 64)
  }

  // ---------------------------------------------------------------- storage

  function PendingJson(p: Pending): (v: Json.Value)
    ensures Json.Printable(v)
  {
    Json.Object([Json.Field("paymentId", Json.Str(p.paymentId)), Json.Field("txHash", Json.Str(p.txHash))])
  }

  function Stored(p: Pending): string {
    Json.Print(PendingJson(p), Json.Compact)
  }

  /** The record that the load effect accepts from a stored text. */
  function Loaded(raw: string): Option<Pending> {
    match Json.Parse(raw)
    case Some(Object(fields)) =>
      (match (Json.Lookup(fields, "paymentId"), Json.Lookup(fields, "txHash"))
       case (Some(Str(paymentId)), Some(Str(txHash))) =>
         if IsPending(Pending(paymentId, txHash)) then Some(Pending(paymentId, txHash)) else None
       case _ => None)
    case _ => None
  }

  lemma StoredIsLoaded(p: Pending)
    ensures Stored(p) != ""
    ensures Loaded(Stored(p)) == if IsHexOf(p.paymentId, 64) && IsHexOf(p.txHash, 64) then Some(p) else None
  {
    Json.PrintRoundTrips(PendingJson(p), Json.Compact);
    var f := PendingJson(p).fields;
    assert f[1].key == "txHash" && f[..1][0].key == "paymentId";
    assert Json.Lookup(f, "paymentId") == Json.Lookup(f[..1], "paymentId");
  }

  // ---------------------------------------------------------------- steps

  /** How the wallet and the API answer one call: the hash of a submitted transaction, its receipt, and the API. */
  datatype Answers = Answers(hash: Option<string>, receipt: Receipt, reply: Reply)

  /** `Accept` is the API processing the record, seen or not. */
  datatype Entry =
    | Submit(paymentId: string)
    | ReceiptRead(paymentId: string, success: bool)
    | Record(pending: Pending)
    | Send(pending: Pending)
    | Accept(pending: Pending)
    | Acknowledge(pending: Pending)

  datatype State = State(pending: Option<Pending>, stored: Option<string>, log: seq<Entry>)

  datatype Event =
    | Execute(paymentId: string, existingHash: Option<string>, answers: Answers)
    | Reload

  datatype Refusal =
    | InvalidPaymentId | InvalidHash | NoContract | AwaitingReconciliation | NoClient | NotSubmitted | NotConfirmed | ApiFailed

  /** The checks at the start; an empty existing hash counts as none here. */
  function Check(paymentId: string, existingHash: Option<string>, pending: Option<Pending>, config: Config): Option<Refusal> {
    if !IsHexOf(paymentId, 64) then Some(InvalidPaymentId)
    else if existingHash.Some? && existingHash.value != "" && !IsHexOf(existingHash.value, 64) then Some(InvalidHash)
    else if !config.contractIsAddress then Some(NoContract)
    else if pending.Some? && pending.value.paymentId != paymentId then Some(AwaitingReconciliation)
    else None
  }

  /** `existingHash ?? pendingReconciliation?.txHash`, where the empty string is not nullish. */
  function KnownHash(existingHash: Option<string>, pending: Option<Pending>): string {
    if existingHash.Some? then existingHash.value else if pending.Some? then pending.value.txHash else ""
  }

  /** What persisting and sending a record leaves in the log. */
  function Sent(p: Pending, reply: Reply): seq<Entry> {
    match reply
    case Refused => [Record(p), Send(p)]
    case Processed => [Record(p), Send(p), Accept(p)]
    case Answered => [Record(p), Send(p), Accept(p), Acknowledge(p)]
  }

  /** Persist the record, send its hash, and clear the record when the browser sees the API's answer. */
  function Reconciled(s: State, p: Pending, reply: Reply): State {
    if reply.Answered? then State(None, None, s.log + Sent(p, reply))
    else State(Some(p), Some(Stored(p)), s.log + Sent(p, reply))
  }

  /** The call submits a transaction: no hash is known, and the wallet gives one. */
  predicate Reaches(pending: Option<Pending>, paymentId: string, existingHash: Option<string>, a: Answers, config: Config) {
    && Check(paymentId, existingHash, pending, config).None?
    && KnownHash(existingHash, pending) == "" && config.clientAvailable && a.hash.Some?
  }

  /** The submission and, if it is read, its receipt. */
  function Flight(paymentId: string, receipt: Receipt): seq<Entry> {
    match receipt
    case Unread => [Submit(paymentId)]
    case Reverted => [Submit(paymentId), ReceiptRead(paymentId, false)]
    case Success => [Submit(paymentId), ReceiptRead(paymentId, true)]
  }

  function Executed(s: State, paymentId: string, existingHash: Option<string>, a: Answers, config: Config): State {
    if Check(paymentId, existingHash, s.pending, config).Some? then s
    else
      var known := KnownHash(existingHash, s.pending);
      if known != "" then Reconciled(s, Pending(paymentId, known), a.reply)
      else if !Reaches(s.pending, paymentId, existingHash, a, config) then s
      else
        var flown := s.(log := s.log + Flight(paymentId, a.receipt));
        if a.receipt != Success then flown else Reconciled(flown, Pending(paymentId, a.hash.value), a.reply)
  }

  function Step(s: State, e: Event, config: Config): State {
    match e
    case Execute(paymentId, existingHash, a) => Executed(s, paymentId, existingHash, a, config)
    case Reload =>
      if s.stored.None? || s.stored.value == "" then s.(pending := None)
      else
        match Loaded(s.stored.value)
        case None => State(None, None, s.log)
        case Some(p) => s.(pending := Some(p))
  }

  function Run(s: State, events: seq<Event>, config: Config): State
    decreases |events|
  {
    if events == [] then s else Run(Step(s, events[0], config), events[1..], config)
  }

  // ---------------------------------------------------------------- the discipline

  /** A rule for each entry, given the record that is open: nothing is submitted or replaced while a record is open. */
  predicate Allowed(open: Option<Pending>, e: Entry) {
    match e
    case Submit(_) => open.None?
    case ReceiptRead(_, _) => open.None?
    case Record(p) => open.None? || open == Some(p)
    case Send(p) => open == Some(p)
    case Accept(p) => open == Some(p)
    case Acknowledge(p) => open == Some(p)
  }

  function After(open: Option<Pending>, e: Entry): Option<Pending> {
    match e
    case Record(p) => Some(p)
    case Acknowledge(_) => None
    case _ => open
  }

  predicate Disciplined(open: Option<Pending>, log: seq<Entry>)
    decreases |log|
  {
    log == [] || (Allowed(open, log[0]) && Disciplined(After(open, log[0]), log[1..]))
  }

  function OpenAfter(open: Option<Pending>, log: seq<Entry>): Option<Pending>
    decreases |log|
  {
    if log == [] then open else OpenAfter(After(open, log[0]), log[1..])
  }

  lemma {:induction false} LogsConcat(open: Option<Pending>, a: seq<Entry>, b: seq<Entry>)
    ensures Disciplined(open, a + b) <==> Disciplined(open, a) && Disciplined(OpenAfter(open, a), b)
    ensures OpenAfter(open, a + b) == OpenAfter(OpenAfter(open, a), b)
    decreases |a|
  {
    if a == [] {
      assert a + b == b;
    } else {
      assert (a + b)[1..] == a[1..] + b;
      LogsConcat(After(open, a[0]), a[1..], b);
    }
  }

  /** What one event adds to the log. */
  function Added(s: State, e: Event, config: Config): seq<Entry> {
    match e
    case Execute(paymentId, existingHash, a) => AddedBy(s.pending, paymentId, existingHash, a, config)
    case Reload => []
  }

  /** The record in memory is the open one and the stored one. */
  predicate Synchronized(s: State) {
    && s.stored == (if s.pending.Some? then Some(Stored(s.pending.value)) else None)
    && (s.pending.Some? ==> IsPending(s.pending.value))
  }

  predicate WellFormed(e: Event) {
    e.Execute? && e.answers.hash.Some? ==> IsHexOf(e.answers.hash.value, 64)
  }

  /**
   * The event does not push a known hash past an open record: either nothing is open for this payment, or the call gives
   * no hash or the recorded one, or an earlier check refuses it, or an empty hash reaches no wallet.
   */
  predicate Respects(s: State, e: Event, config: Config) {
    e.Execute? && s.pending.Some? && Check(e.paymentId, e.existingHash, s.pending, config).None? && e.existingHash.Some? ==>
      || e.existingHash.value == s.pending.value.txHash
      || (e.existingHash.value == "" && (!config.clientAvailable || e.answers.hash.None?))
  }

  lemma OneEntry(e: Entry, open: Option<Pending>)
    ensures Disciplined(open, [e]) == Allowed(open, e) && OpenAfter(open, [e]) == After(open, e)
  {
  }

  lemma TwoLogs(open: Option<Pending>, a: Entry, b: seq<Entry>)
    ensures Disciplined(open, [a] + b) <==> Allowed(open, a) && Disciplined(After(open, a), b)
    ensures OpenAfter(open, [a] + b) == OpenAfter(After(open, a), b)
  {
    OneEntry(a, open);
    LogsConcat(open, [a], b);
  }

  /** Persisting and sending a record is in order exactly when no other record is open. */
  lemma SentLog(open: Option<Pending>, p: Pending, reply: Reply)
    ensures Disciplined(open, Sent(p, reply)) <==> open.None? || open == Some(p)
    ensures OpenAfter(open, Sent(p, reply)) == if reply.Answered? then None else Some(p)
  {
    var more := if reply.Refused? then [] else if reply.Processed? then [Accept(p)] else [Accept(p)] + [Acknowledge(p)];
    OneEntry(Accept(p), Some(p));
    OneEntry(Acknowledge(p), Some(p));
    TwoLogs(Some(p), Accept(p), [Acknowledge(p)]);
    TwoLogs(Some(p), Send(p), more);
    TwoLogs(open, Record(p), [Send(p)] + more);
    assert Sent(p, reply) == [Record(p)] + ([Send(p)] + more);
  }

  lemma FlightLog(open: Option<Pending>, paymentId: string, receipt: Receipt)
    ensures Disciplined(open, Flight(paymentId, receipt)) <==> open.None?
    ensures OpenAfter(open, Flight(paymentId, receipt)) == open
  {
    OneEntry(Submit(paymentId), open);
    var read := ReceiptRead(paymentId, receipt == Success);
    OneEntry(read, open);
    TwoLogs(open, Submit(paymentId), [read]);
    assert [Submit(paymentId)] + [read] == [Submit(paymentId), read];
  }

  /** What one event adds to the log, and how it leaves the records. */
  lemma ReconciledLog(s: State, p: Pending, reply: Reply)
    ensures var t := Reconciled(s, p, reply);
            && t.log == s.log + Sent(p, reply)
            && (Disciplined(s.pending, Sent(p, reply)) <==> s.pending.None? || s.pending == Some(p))
            && OpenAfter(s.pending, Sent(p, reply)) == t.pending
            && (IsPending(p) ==> Synchronized(t))
  {
    SentLog(s.pending, p, reply);
  }

  lemma FlownLog(s: State, paymentId: string, p: Pending, receipt: Receipt, reply: Reply)
    ensures var flight := Flight(paymentId, receipt);
            var t := Reconciled(s.(log := s.log + flight), p, reply);
            && t.log == s.log + (flight + Sent(p, reply))
            && (Disciplined(s.pending, flight + Sent(p, reply)) <==> s.pending.None?)
            && OpenAfter(s.pending, flight + Sent(p, reply)) == t.pending
            && (IsPending(p) ==> Synchronized(t))
  {
    var flight := Flight(paymentId, receipt);
    FlightLog(s.pending, paymentId, receipt);
    ReconciledLog(s.(log := s.log + flight), p, reply);
    LogsConcat(s.pending, flight, Sent(p, reply));
    assert s.log + flight + Sent(p, reply) == s.log + (flight + Sent(p, reply));
  }

  /** The entries that a call adds to the log. */
  function AddedBy(pending: Option<Pending>, paymentId: string, existingHash: Option<string>, a: Answers, config: Config): seq<Entry> {
    if Check(paymentId, existingHash, pending, config).Some? then []
    else
      var known := KnownHash(existingHash, pending);
      if known != "" then Sent(Pending(paymentId, known), a.reply)
      else if !Reaches(pending, paymentId, existingHash, a, config) then []
      else
        Flight(paymentId, a.receipt)
        + if a.receipt != Success then [] else Sent(Pending(paymentId, a.hash.value), a.reply)
  }

  lemma ExecutedLog(s: State, paymentId: string, existingHash: Option<string>, a: Answers, config: Config)
    requires Synchronized(s) && WellFormed(Execute(paymentId, existingHash, a))
    ensures var t := Executed(s, paymentId, existingHash, a, config);
            var added := AddedBy(s.pending, paymentId, existingHash, a, config);
            && t.log == s.log + added && Synchronized(t)
            && (Disciplined(s.pending, added) <==> Respects(s, Execute(paymentId, existingHash, a), config))
            && OpenAfter(s.pending, added) == t.pending
  {
    assert s.log + [] == s.log;
    if Check(paymentId, existingHash, s.pending, config).None? {
      var known := KnownHash(existingHash, s.pending);
      if known != "" {
        ReconciledLog(s, Pending(paymentId, known), a.reply);
      } else if Reaches(s.pending, paymentId, existingHash, a, config) {
        FlightLog(s.pending, paymentId, a.receipt);
        FlownLog(s, paymentId, Pending(paymentId, a.hash.value), a.receipt, a.reply);
        assert Flight(paymentId, a.receipt) + [] == Flight(paymentId, a.receipt);
      }
    }
  }

  // ---------------------------------------------------------------- what a call submits and records

  /** What it takes for a call to pass the checks at the start. */
  ghost predicate Eligible(paymentId: string, existingHash: Option<string>, pending: Option<Pending>, config: Config) {
    && IsHexOf(paymentId, 64) && config.contractIsAddress
    && (existingHash.Some? ==> existingHash.value == "" || IsHexOf(existingHash.value, 64))
    && (pending.Some? ==> pending.value.paymentId == paymentId)
  }

  /** A call submits exactly for an eligible payment of which no hash is known, through an available wallet. */
  lemma CallSubmitsExactly(s: State, paymentId: string, existingHash: Option<string>, a: Answers, config: Config, id: string)
    requires Synchronized(s)
    ensures Submit(id) in AddedBy(s.pending, paymentId, existingHash, a, config) <==>
            && id == paymentId && Eligible(paymentId, existingHash, s.pending, config)
            && (existingHash == Some("") || (existingHash.None? && s.pending.None?))
            && config.clientAvailable && a.hash.Some?
  {
    var flight := Flight(paymentId, a.receipt);
    assert flight[0] == Submit(paymentId);
  }

  lemma SentHolds(sent: Pending, reply: Reply, p: Pending)
    ensures var log := Sent(sent, reply);
            && (Record(p) in log <==> p == sent) && (Send(p) in log <==> p == sent)
            && (Accept(p) in log <==> p == sent && !reply.Refused?) && (Acknowledge(p) in log <==> p == sent && reply.Answered?)
  {
    var log := Sent(sent, reply);
    assert log[0] == Record(sent) && log[1] == Send(sent);
    assert !reply.Refused? ==> log[2] == Accept(sent);
    assert reply.Answered? ==> log[3] == Acknowledge(sent);
  }

  /**
   * A call records exactly one pair: its payment with the hash it was given, or else the open record's, or else the hash of the
   * transaction it submitted itself, once that has succeeded.
   */
  lemma CallRecordsExactly(s: State, paymentId: string, existingHash: Option<string>, a: Answers, config: Config, p: Pending)
    requires Synchronized(s)
    ensures Record(p) in AddedBy(s.pending, paymentId, existingHash, a, config) <==>
            && p.paymentId == paymentId && Eligible(paymentId, existingHash, s.pending, config)
            && if existingHash.Some? && existingHash.value != "" then p.txHash == existingHash.value
               else if existingHash.None? && s.pending.Some? then p.txHash == s.pending.value.txHash
               else config.clientAvailable && a.hash == Some(p.txHash) && a.receipt == Success
    ensures var added := AddedBy(s.pending, paymentId, existingHash, a, config);
            && (Send(p) in added <==> Record(p) in added)
            && (Accept(p) in added <==> Record(p) in added && !a.reply.Refused?)
            && (Acknowledge(p) in added <==> Record(p) in added && a.reply.Answered?)
  {
    SentHolds(Pending(paymentId, KnownHash(existingHash, s.pending)), a.reply, p);
    if a.hash.Some? {
      SentHolds(Pending(paymentId, a.hash.value), a.reply, p);
    }
  }

  /**
   * One event keeps the discipline exactly when it respects the open record. In every case memory and storage stay
   * synchronized, and a reload changes nothing.
   */
  lemma StepIsDisciplinedExactly(s: State, e: Event, config: Config)
    requires Synchronized(s) && WellFormed(e)
    ensures var t := Step(s, e, config);
            && t.log == s.log + Added(s, e, config)
            && Synchronized(t)
            && (Disciplined(s.pending, Added(s, e, config)) <==> Respects(s, e, config))
            && OpenAfter(s.pending, Added(s, e, config)) == t.pending
            && (e.Reload? ==> t == s)
  {
    match e
    case Execute(paymentId, existingHash, a) =>
      ExecutedLog(s, paymentId, existingHash, a, config);
    case Reload =>
      assert s.log + [] == s.log;
      if s.pending.Some? {
        StoredIsLoaded(s.pending.value);
      }
  }

  const FRESH := State(None, None, [])

  predicate AllRespect(s: State, events: seq<Event>, config: Config)
    decreases |events|
  {
    events == [] || (Respects(s, events[0], config) && AllRespect(Step(s, events[0], config), events[1..], config))
  }

  lemma {:induction false} RunIsDisciplined(s: State, events: seq<Event>, config: Config)
    requires Synchronized(s) && Disciplined(None, s.log) && OpenAfter(None, s.log) == s.pending
    requires forall i :: 0 <= i < |events| ==> WellFormed(events[i])
    ensures var t := Run(s, events, config);
            && Synchronized(t) && OpenAfter(None, t.log) == t.pending && s.log <= t.log
            && (Disciplined(None, t.log) <==> AllRespect(s, events, config))
    decreases |events|
  {
    if events != [] {
      StepIsDisciplinedExactly(s, events[0], config);
      var next := Step(s, events[0], config);
      LogsConcat(None, s.log, Added(s, events[0], config));
      if Disciplined(None, next.log) {
        RunIsDisciplined(next, events[1..], config);
      } else {
        BrokenStaysBroken(next, events[1..], config);
      }
    }
  }

  /** Once a rule is broken the log stays broken, but memory, storage and log still agree on the open record. */
  lemma {:induction false} BrokenStaysBroken(s: State, events: seq<Event>, config: Config)
    requires Synchronized(s) && !Disciplined(None, s.log) && OpenAfter(None, s.log) == s.pending
    requires forall i :: 0 <= i < |events| ==> WellFormed(events[i])
    ensures var t := Run(s, events, config);
            && Synchronized(t) && OpenAfter(None, t.log) == t.pending && s.log <= t.log && !Disciplined(None, t.log)
    decreases |events|
  {
    if events != [] {
      StepIsDisciplinedExactly(s, events[0], config);
      LogsConcat(None, s.log, Added(s, events[0], config));
      BrokenStaysBroken(Step(s, events[0], config), events[1..], config);
    }
  }

  /**
   * Over every sequential run: no transaction is submitted and no record replaced while a record is open, exactly when
   * every call respects the open record; in particular when no call ever gives an existing hash.
   */
  lemma RunsAreDisciplinedExactly(events: seq<Event>, config: Config)
    requires forall i :: 0 <= i < |events| ==> WellFormed(events[i])
    ensures Disciplined(None, Run(FRESH, events, config).log) <==> AllRespect(FRESH, events, config)
    ensures (forall i :: 0 <= i < |events| && events[i].Execute? ==> events[i].existingHash.None?)
            ==> Disciplined(None, Run(FRESH, events, config).log)
  {
    RunIsDisciplined(FRESH, events, config);
    if forall i :: 0 <= i < |events| && events[i].Execute? ==> events[i].existingHash.None? {
      NoHashRespects(FRESH, events, config);
    }
  }

  lemma {:induction false} NoHashRespects(s: State, events: seq<Event>, config: Config)
    requires forall i :: 0 <= i < |events| && events[i].Execute? ==> events[i].existingHash.None?
    ensures AllRespect(s, events, config)
    decreases |events|
  {
    if events != [] {
      NoHashRespects(Step(s, events[0], config), events[1..], config);
    }
  }

  /** A call with another existing hash for the same payment overwrites the open record, which is then lost. */
  lemma ExistingHashOverridesRecord(p: Pending, other: string, a: Answers)
    requires IsPending(p) && IsHexOf(other, 64) && other != p.txHash && !a.reply.Answered?
    ensures var s := State(Some(p), Some(Stored(p)), []);
            var t := Step(s, Execute(p.paymentId, Some(other), a), Config(true, true));
            t.pending == Some(Pending(p.paymentId, other)) && !Disciplined(s.pending, t.log)
  {
    var s := State(Some(p), Some(Stored(p)), []);
    ReconciledLog(s, Pending(p.paymentId, other), a.reply);
    assert [] + Sent(Pending(p.paymentId, other), a.reply) == Sent(Pending(p.paymentId, other), a.reply);
  }

  // ---------------------------------------------------------------- at most one submission at a time

  /** Marks of the transactions submitted for one payment. */
  function MarkOf(e: Entry, id: string): Mark {
    match e
    case Submit(paymentId) => if paymentId == id then Launch else Other
    case ReceiptRead(paymentId, _) => if paymentId == id then Settle else Other
    case _ => Other
  }

  function Marks(log: seq<Entry>, id: string): (marks: seq<Mark>)
    ensures |marks| == |log| && forall i :: 0 <= i < |log| ==> marks[i] == MarkOf(log[i], id)
  {
    seq(|log|, i requires 0 <= i < |log| => MarkOf(log[i], id))
  }

  function KindOf(s: State, e: Event, id: string, config: Config): Kind {
    if !e.Execute? || e.paymentId != id || !Reaches(s.pending, e.paymentId, e.existingHash, e.answers, config) then Grounded
    else if e.answers.receipt.Unread? then LeftUnread
    else Landed
  }

  function Kinds(s: State, events: seq<Event>, id: string, config: Config): (kinds: seq<Kind>)
    ensures |kinds| == |events|
    decreases |events|
  {
    if events == [] then []
    else [KindOf(s, events[0], id, config)] + Kinds(Step(s, events[0], config), events[1..], id, config)
  }

  lemma MarksJoin(a: seq<Entry>, b: seq<Entry>, id: string)
    ensures Marks(a + b, id) == Marks(a, id) + Marks(b, id)
  {
  }

  lemma AddedToLog(s: State, e: Event, config: Config)
    ensures Step(s, e, config).log == s.log + Added(s, e, config)
  {
    assert s.log + [] == s.log;
    if e.Execute? {
      var flight := Flight(e.paymentId, e.answers.receipt);
      assert flight + [] == flight;
      if e.answers.hash.Some? {
        var sent := Sent(Pending(e.paymentId, e.answers.hash.value), e.answers.reply);
        assert s.log + flight + sent == s.log + (flight + sent);
      }
    }
  }

  lemma AddedFits(s: State, e: Event, id: string, config: Config)
    ensures Fits(Marks(Added(s, e, config), id), KindOf(s, e, id, config))
  {
    var marks := Marks(Added(s, e, config), id);
    if KindOf(s, e, id, config).Grounded? {
      OthersAreGrounded(marks);
    } else {
      var sent := if e.answers.receipt != Success then [] else Sent(Pending(e.paymentId, e.answers.hash.value), e.answers.reply);
      MarksJoin(Flight(e.paymentId, e.answers.receipt), sent, id);
      OthersAreGrounded([]);
      OthersAreGrounded(Marks(sent, id));
      LaunchFits([], Marks(sent, id));
      var flight: seq<Mark> := if e.answers.receipt.Unread? then [Launch] else [Launch, Settle];
      assert Marks(Flight(e.paymentId, e.answers.receipt), id) == flight;
      assert [] + flight == flight;
    }
  }

  lemma {:induction false} FlightsOfRun(s: State, flying: bool, events: seq<Event>, id: string, config: Config)
    returns (added: seq<Entry>)
    ensures Run(s, events, config).log == s.log + added
    ensures SingleFlight(flying, Marks(added, id)) <==> NoneAfterUnread(flying, Kinds(s, events, id, config))
    decreases |events|
  {
    added := [];
    if events == [] {
      assert s.log + [] == s.log;
    } else {
      var u := Step(s, events[0], config);
      var first := Added(s, events[0], config);
      var kind, rest := KindOf(s, events[0], id, config), Kinds(u, events[1..], id, config);
      AddedToLog(s, events[0], config);
      AddedFits(s, events[0], id, config);
      var more := FlightsOfRun(u, InFlight(flying, Marks(first, id)), events[1..], id, config);
      KindInFront(flying, kind, rest, Marks(first, id));
      MarksConcat(flying, Marks(first, id), Marks(more, id));
      MarksJoin(first, more, id);
      Joined(s.log, first, more);
      added := first + more;
    }
  }

  lemma Joined(a: seq<Entry>, b: seq<Entry>, c: seq<Entry>)
    ensures a + b + c == a + (b + c)
  {
  }

  /**
   * Over every run and for every payment, no transaction is submitted while an earlier one for that payment is unsettled,
   * if and only if no call for it that submits comes after one whose receipt stayed unread.
   */
  lemma SubmitsOnceExactlyUnlessUnread(events: seq<Event>, id: string, config: Config)
    ensures var kinds := Kinds(FRESH, events, id, config);
            SingleFlight(false, Marks(Run(FRESH, events, config).log, id))
            <==> forall i, j :: 0 <= i < j < |kinds| && kinds[i].LeftUnread? ==> kinds[j].Grounded?
  {
    var added := FlightsOfRun(FRESH, false, events, id, config);
    assert [] + added == added;
  }

  // ---------------------------------------------------------------- the hook

  /** `usePaymentLifecycle`. */
  class Hook {
    const config: Config
    var pendingReconciliation: Option<Pending>
    var stored: Option<string>
    var log: seq<Entry>

    constructor (config: Config)
      ensures this.config == config && Abs() == FRESH
    {
      this.config := config;
      pendingReconciliation, stored, log := None, None, [];
    }

    function Abs(): State
      reads this
    {
      State(pendingReconciliation, stored, log)
    }

    /** `persistPending`, with working storage. */
    method PersistPending(pending: Option<Pending>)
      modifies this
      ensures Abs() == old(Abs()).(pending := pending, stored := if pending.Some? then Some(Stored(pending.value)) else None)
    {
      pendingReconciliation := pending;
      stored := if pending.Some? then Some(Stored(pending.value)) else None;
    }

    /** `execute`. */
    method Execute(paymentId: string, existingHash: Option<string>, a: Answers) returns (refusal: Option<Refusal>)
      modifies this
      ensures Abs() == Step(old(Abs()), Event.Execute(paymentId, existingHash, a), config)
      ensures refusal.None? <==>
                && Eligible(paymentId, existingHash, old(pendingReconciliation), config) && a.reply.Answered?
                && (|| KnownHash(existingHash, old(pendingReconciliation)) != ""
                    || (config.clientAvailable && a.hash.Some? && a.receipt == Success))
      ensures refusal.None? ==> pendingReconciliation.None?
    {
      refusal := Check(paymentId, existingHash, pendingReconciliation, config);
      if refusal.Some? {
        return;
      }
      var hash := KnownHash(existingHash, pendingReconciliation);
      if hash == "" {
        if !config.clientAvailable {
          return Some(NoClient);
        }
        if a.hash.None? {
          return Some(NotSubmitted);
        }
        hash := a.hash.value;
        log := log + Flight(paymentId, a.receipt);
        if a.receipt != Success {
          return Some(NotConfirmed);
        }
      }
      var pending := Pending(paymentId, hash);
      PersistPending(Some(pending));
      log := log + Sent(pending, a.reply);
      if !a.reply.Answered? {
        return Some(ApiFailed);
      }
      PersistPending(None);
      return None;
    }

    /** The load effect after a reload of the page. */
    method Load()
      modifies this
      ensures Abs() == Step(old(Abs()), Reload, config)
    {
      pendingReconciliation := None;
      if stored.None? || stored.value == "" {
        return;
      }
      var parsed := Loaded(stored.value);
      if parsed.None? {
        stored := None;
      } else {
        pendingReconciliation := parsed;
      }
    }
  }
}
