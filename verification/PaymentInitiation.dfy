/** Initiating payments and recovering unreconciled ones (`useInitiatePayment`, src/hooks/usePayment.ts). */
module PaymentInitiation {
  import opened Wrappers
  import opened Text
  import opened FixedPoint
  import opened DecimalAmounts
  import opened Submissions
  import Json

  /** `PendingPaymentReconciliation`. */
  datatype Pending = Pending(txHash: string, recipient: string, amount: string, currency: string, purposeHash: string)

  datatype Params = Params(recipient: string, amount: string, currency: string, purpose: string)

  /** The payment a transaction carries; the amount is in the token's smallest units. */
  datatype Order = Order(recipient: string, amount: nat, currency: string, purposeHash: string)

  /** One connected wallet and one deployment; library functions are uninterpreted. */
  datatype Config = Config(
    address: string,
    contractIsAddress: bool,
    clientAvailable: bool,
    isAddress: string -> bool,
    tokenConfigured: string -> bool,
    trim: string -> string,
    purposeHash: string -> string)

  const ZERO_ADDRESS: string := "0x" + Repeat('0', 40)

  predicate IsSupported(currency: string) {
    currency == "USDC" || currency == "USDT"
  }

  /** `/^\d+(?:\.\d{1,6})?$/`. */
  predicate IsAmount(raw: string) {
    IsDecimal(raw) && |Read(raw).fraction| <= 6
  }

  /** `isPendingPaymentReconciliation` on a value whose five properties are strings. */
  predicate IsPending(p: Pending, config: Config) {
    && IsHexOf(p.txHash, 64) && config.isAddress(p.recipient) && IsAmount(p.amount)
    && IsSupported(p.currency) && IsHexOf(p.purposeHash, 64)
  }

  // ---------------------------------------------------------------- storage

  function PendingJson(p: Pending): (v: Json.Value)
    ensures Json.Printable(v)
  {
    Json.Object([
      Json.Field("txHash", Json.Str(p.txHash)),
      Json.Field("recipient", Json.Str(p.recipient)),
      Json.Field("amount", Json.Str(p.amount)),
      Json.Field("currency", Json.Str(p.currency)),
      Json.Field("purposeHash", Json.Str(p.purposeHash))
    ])
  }

  /** `JSON.stringify(pending)`. */
  function Stored(p: Pending): string {
    Json.Print(PendingJson(p), Json.Compact)
  }

  function FromJson(v: Json.Value): Option<Pending> {
    if !v.Object? then None
    else
      match (Json.LookupText(v.fields, "txHash"), Json.LookupText(v.fields, "recipient"), Json.LookupText(v.fields, "amount"),
             Json.LookupText(v.fields, "currency"), Json.LookupText(v.fields, "purposeHash"))
      case (Some(txHash), Some(recipient), Some(amount), Some(currency), Some(purposeHash)) =>
        Some(Pending(txHash, recipient, amount, currency, purposeHash))
      case _ => None
  }

  /** The record that the load effect accepts from a stored text. */
  function Loaded(raw: string, config: Config): Option<Pending> {
    match Json.Parse(raw)
    case None => None
    case Some(v) =>
      match FromJson(v)
      case None => None
      case Some(p) => if IsPending(p, config) then Some(p) else None
  }

  /** A stored record survives a reload exactly when it is a valid pending record. */
  lemma StoredIsLoaded(p: Pending, config: Config)
    ensures Stored(p) != ""
    ensures Loaded(Stored(p), config) == if IsPending(p, config) then Some(p) else None
    ensures IsPending(p, config) <==>
            && IsHexOf(p.txHash, 64) && IsHexOf(p.purposeHash, 64) && config.isAddress(p.recipient)
            && (p.currency == "USDC" || p.currency == "USDT") && IsDecimal(p.amount) && |Read(p.amount).fraction| <= 6
  {
    Json.PrintRoundTrips(PendingJson(p), Json.Compact);
    var f := PendingJson(p).fields;
    Json.LookupAt(f, 0);
    Json.LookupAt(f, 1);
    Json.LookupAt(f, 2);
    Json.LookupAt(f, 3);
    Json.LookupAt(f, 4);
  }

  // ---------------------------------------------------------------- what happens outside

  /** How the RPC, the wallet and the API answer during one call of `initiate`. */
  datatype Answers = Answers(
    allowance: Option<nat>,
    reset: Option<Receipt>,
    approve: Option<Receipt>,
    hash: Option<string>,
    receipt: Receipt,
    reply: Reply)

  /** What leaves the browser and what comes back, in order; approvals go to the token of a currency, and `Accept` is the API processing a record, seen or not. */
  datatype Entry =
    | AllowanceRead(currency: string, amount: nat)
    | Approve(currency: string, amount: nat)
    | Submit(hash: string, order: Order)
    | ReceiptRead(hash: string, success: bool)
    | Record(pending: Pending)
    | Send(pending: Pending)
    | Accept(pending: Pending)
    | Acknowledge(pending: Pending)

  datatype State = State(pending: Option<Pending>, stored: Option<string>, log: seq<Entry>)

  datatype Event =
    | Initiate(params: Params, answers: Answers)
    | Recover(reply: Reply)
    | Reload

  datatype Refusal =
    | UnsupportedCurrency | InvalidRecipient | ZeroRecipient | SelfPayment | NoContract | NoClient
    | AwaitingReconciliation | InvalidAmount | InvalidPurpose | ZeroAmount | NoToken
    | AllowanceFailed | ApprovalFailed | NotSubmitted | NotConfirmed | ApiFailed | NothingPending

  function Units6(params: Params): nat
    requires IsAmount(params.amount)
  {
    DecimalReads(params.amount);
    Units(Read(params.amount), 6)
  }

  /** The checks before anything leaves the browser, in the order of the code. */
  function Check(params: Params, pending: Option<Pending>, config: Config): Option<Refusal> {
    if !IsSupported(params.currency) then Some(UnsupportedCurrency)
    else if !config.isAddress(params.recipient) then Some(InvalidRecipient)
    else if Lower(params.recipient) == ZERO_ADDRESS then Some(ZeroRecipient)
    else if Lower(params.recipient) == Lower(config.address) then Some(SelfPayment)
    else if !config.contractIsAddress then Some(NoContract)
    else if !config.clientAvailable then Some(NoClient)
    else if pending.Some? then Some(AwaitingReconciliation)
    else if !IsAmount(params.amount) then Some(InvalidAmount)
    else if |config.trim(params.purpose)| < 3 || |config.trim(params.purpose)| > 500 then Some(InvalidPurpose)
    else if Units6(params) == 0 then Some(ZeroAmount)
    else if !config.tokenConfigured(params.currency) then Some(NoToken)
    else None
  }

  function OrderOf(params: Params, config: Config): Order
    requires IsAmount(params.amount)
  {
    Order(params.recipient, Units6(params), params.currency, config.purposeHash(config.trim(params.purpose)))
  }

  /** Approvals that bring the allowance to exactly the amount: what is sent and whether it worked. */
  function Approvals(order: Order, a: Answers): (seq<Entry>, bool) {
    var (token, amount) := (order.currency, order.amount);
    if a.allowance.None? then ([], false)
    else if a.allowance.value == amount then ([AllowanceRead(token, amount)], true)
    else if a.allowance.value > 0 && a.reset.None? then ([AllowanceRead(token, a.allowance.value)], false)
    else
      var resets := if a.allowance.value > 0 then [Approve(token, 0)] else [];
      var before := [AllowanceRead(token, a.allowance.value)] + resets;
      if a.allowance.value > 0 && a.reset != Some(Success) then (before, false)
      else if a.approve.None? then (before, false)
      else (before + [Approve(token, amount)], a.approve == Some(Success))
  }

  function RecordOf(params: Params, hash: string, config: Config): Pending {
    Pending(hash, params.recipient, params.amount, params.currency, config.purposeHash(config.trim(params.purpose)))
  }

  /** What sending a record leaves in the log. */
  function Sent(p: Pending, reply: Reply): seq<Entry> {
    match reply
    case Refused => [Send(p)]
    case Processed => [Send(p), Accept(p)]
    case Answered => [Send(p), Accept(p), Acknowledge(p)]
  }

  /** `reconcilePending` and, when the browser sees the API's answer, `handleReconciled`. */
  function Reconcile(s: State, p: Pending, reply: Reply): State {
    if reply.Answered? then State(None, None, s.log + Sent(p, reply)) else s.(log := s.log + Sent(p, reply))
  }

  function Persist(s: State, p: Pending): State {
    State(Some(p), Some(Stored(p)), s.log + [Record(p)])
  }

  /** The call gets as far as a submitted payment transaction. */
  predicate Reaches(pending: Option<Pending>, params: Params, a: Answers, config: Config) {
    Check(params, pending, config).None? && Approvals(OrderOf(params, config), a).1 && a.hash.Some?
  }

  function Initiated(s: State, params: Params, a: Answers, config: Config): State {
    if Check(params, s.pending, config).Some? then s
    else
      var order := OrderOf(params, config);
      var t := s.(log := s.log + Approvals(order, a).0);
      if !Reaches(s.pending, params, a, config) then t
      else
        var submitted := t.(log := t.log + [Submit(a.hash.value, order)]);
        match a.receipt
        case Unread => submitted
        case Reverted => submitted.(log := submitted.log + [ReceiptRead(a.hash.value, false)])
        case Success =>
          var confirmed := submitted.(log := submitted.log + [ReceiptRead(a.hash.value, true)]);
          var p := RecordOf(params, a.hash.value, config);
          Reconcile(Persist(confirmed, p), p, a.reply)
  }

  function Step(s: State, e: Event, config: Config): State {
    match e
    case Initiate(params, a) => Initiated(s, params, a, config)
    case Recover(reply) => if s.pending.None? then s else Reconcile(s, s.pending.value, reply)
    case Reload =>
      if s.stored.None? || s.stored.value == "" then s.(pending := None)
      else
        match Loaded(s.stored.value, config)
        case None => State(None, None, s.log)
        case Some(p) => s.(pending := Some(p))
  }

  function Run(s: State, events: seq<Event>, config: Config): State
    decreases |events|
  {
    if events == [] then s else Run(Step(s, events[0], config), events[1..], config)
  }

  // ---------------------------------------------------------------- the discipline

  /** What an observer of the log knows: the token last looked at and its allowance, the open record, and whether the API has processed it yet. */
  datatype Observer = Observer(token: string, allowance: nat, open: Option<Pending>, accepted: bool)

  /**
   * The rules. An allowance changes only from or to zero. A payment is submitted only with nothing open and with an
   * allowance of exactly its amount, read or set last and in its token. Only the open record is sent, processed and acknowledged, unchanged, and it is
   * acknowledged only after the API has processed it.
   */
  function Observe(o: Observer, e: Entry): Option<Observer> {
    match e
    case AllowanceRead(token, n) => Some(o.(token := token, allowance := n))
    case Approve(token, n) => if o.token == token && (o.allowance == 0 || n == 0) then Some(o.(allowance := n)) else None
    case Submit(_, order) =>
      if o.open.None? && o.token == order.currency && o.allowance == order.amount && order.amount > 0 then Some(o) else None
    case ReceiptRead(_, _) => if o.open.None? then Some(o) else None
    case Record(p) => if o.open.None? then Some(o.(open := Some(p), accepted := false)) else None
    case Send(p) => if o.open == Some(p) then Some(o) else None
    case Accept(p) => if o.open == Some(p) then Some(o.(accepted := true)) else None
    case Acknowledge(p) => if o.open == Some(p) && o.accepted then Some(o.(open := None)) else None
  }

  /** The observer after a whole log; `None` when some rule was broken on the way. */
  function Replay(log: seq<Entry>): Option<Observer> {
    if log == [] then Some(Observer("", 0, None, false))
    else
      match Replay(log[..|log| - 1])
      case None => None
      case Some(o) => Observe(o, log[|log| - 1])
  }

  /** One more entry. */
  lemma Extend(log: seq<Entry>, e: Entry)
    ensures Replay(log + [e]) == if Replay(log).None? then None else Observe(Replay(log).value, e)
  {
    assert (log + [e])[..|log + [e]| - 1] == log;
  }

  /** The log keeps the rules, the observer's open record is the pending one, and storage holds exactly that record. */
  predicate Invariant(s: State, config: Config) {
    && Replay(s.log).Some? && Replay(s.log).value.open == s.pending
    && s.stored == (if s.pending.Some? then Some(Stored(s.pending.value)) else None)
    && (s.pending.Some? ==> IsPending(s.pending.value, config))
  }

  /** Wallet and hash function return 32-byte hexadecimal values. */
  predicate WellFormed(e: Event, config: Config) {
    e.Initiate? ==>
      && (e.answers.hash.Some? ==> IsHexOf(e.answers.hash.value, 64))
      && IsHexOf(config.purposeHash(config.trim(e.params.purpose)), 64)
  }

  lemma Joined(a: seq<Entry>, b: seq<Entry>, c: seq<Entry>)
    ensures a + b + c == a + (b + c)
  {
  }

  /** Three entries, one after the other. */
  lemma ExtendThree(log: seq<Entry>, a: Entry, b: Entry, c: Entry)
    ensures Replay(log + [a, b]) == Replay(log + [a] + [b])
    ensures Replay(log + [a, b, c]) == Replay(log + [a] + [b] + [c])
  {
    assert log + [a, b] == log + [a] + [b];
    assert log + [a, b, c] == log + [a] + [b] + [c];
  }

  lemma ResetKeepsRules(log: seq<Entry>, token: string, n: nat, amount: nat)
    requires Replay(log).Some?
    ensures var r := Replay(log).value;
            && Replay(log + [AllowanceRead(token, n)]) == Some(r.(token := token, allowance := n))
            && Replay(log + [AllowanceRead(token, n), Approve(token, 0)]) == Some(r.(token := token, allowance := 0))
            && Replay(log + [AllowanceRead(token, n), Approve(token, 0), Approve(token, amount)]) == Some(r.(token := token, allowance := amount))
            && (n == 0 ==> Replay(log + [AllowanceRead(token, n), Approve(token, amount)]) == Some(r.(token := token, allowance := amount)))
  {
    var read := log + [AllowanceRead(token, n)];
    Extend(log, AllowanceRead(token, n));
    Extend(read, Approve(token, 0));
    Extend(read, Approve(token, amount));
    Extend(read + [Approve(token, 0)], Approve(token, amount));
    ExtendThree(log, AllowanceRead(token, n), Approve(token, 0), Approve(token, amount));
    ExtendThree(log, AllowanceRead(token, n), Approve(token, amount), Approve(token, amount));
  }

  /** The entries of the approval phase are one of five lists. */
  lemma ApprovalShapes(order: Order, a: Answers)
    ensures var entries, token, amount := Approvals(order, a).0, order.currency, order.amount;
            if a.allowance.None? then entries == [] && !Approvals(order, a).1
            else
              var n := a.allowance.value;
              || (entries == [AllowanceRead(token, n)] && (Approvals(order, a).1 ==> n == amount))
              || (entries == [AllowanceRead(token, n), Approve(token, 0)] && !Approvals(order, a).1)
              || entries == [AllowanceRead(token, n), Approve(token, 0), Approve(token, amount)]
              || (entries == [AllowanceRead(token, n), Approve(token, amount)] && n == 0)
  {
    var token := order.currency;
    if a.allowance.Some? {
      assert [AllowanceRead(token, a.allowance.value)] + [] == [AllowanceRead(token, a.allowance.value)];
    }
  }

  /** Approvals keep the rules, and when they work the allowance is exactly the amount. */
  lemma ApprovalsKeepRules(log: seq<Entry>, order: Order, a: Answers)
    requires Replay(log).Some?
    ensures var r := Replay(log + Approvals(order, a).0);
            && r.Some? && r.value.open == Replay(log).value.open
            && (Approvals(order, a).1 ==> r.value.token == order.currency && r.value.allowance == order.amount)
  {
    assert log + [] == log;
    ApprovalShapes(order, a);
    if a.allowance.Some? {
      ResetKeepsRules(log, order.currency, a.allowance.value, order.amount);
    }
  }

  /** Sending the open record keeps the rules and closes it exactly when the answer is seen. */
  lemma SentKeepsRules(log: seq<Entry>, p: Pending, reply: Reply)
    requires Replay(log).Some? && Replay(log).value.open == Some(p)
    ensures Replay(log + Sent(p, reply)).Some?
    ensures Replay(log + Sent(p, reply)).value.open == if reply.Answered? then None else Some(p)
  {
    Extend(log, Send(p));
    Extend(log + [Send(p)], Accept(p));
    Extend(log + [Send(p)] + [Accept(p)], Acknowledge(p));
    Joined(log, [Send(p)], [Accept(p)]);
    Joined(log, [Send(p)] + [Accept(p)], [Acknowledge(p)]);
    assert [Send(p)] + [Accept(p)] == [Send(p), Accept(p)];
    assert [Send(p), Accept(p)] + [Acknowledge(p)] == [Send(p), Accept(p), Acknowledge(p)];
  }

  /** A submission with nothing open, and its receipt if it is read. */
  lemma FlightKeepsRules(log: seq<Entry>, hash: string, order: Order, success: bool)
    requires Replay(log).Some? && Replay(log).value.open.None?
    requires Replay(log).value.token == order.currency && Replay(log).value.allowance == order.amount > 0
    ensures var submitted := log + [Submit(hash, order)];
            var settled := submitted + [ReceiptRead(hash, success)];
            && Replay(submitted).Some? && Replay(submitted).value.open.None?
            && Replay(settled).Some? && Replay(settled).value.open.None?
  {
    Extend(log, Submit(hash, order));
    Extend(log + [Submit(hash, order)], ReceiptRead(hash, success));
  }

  /** Recording a payment, keeping it in storage, and sending it. */
  lemma PersistKeeps(s: State, p: Pending, reply: Reply, config: Config)
    requires Invariant(s, config) && s.pending.None? && IsPending(p, config)
    ensures Invariant(Reconcile(Persist(s, p), p, reply), config)
  {
    Extend(s.log, Record(p));
    SentKeepsRules(s.log + [Record(p)], p, reply);
  }

  lemma InitiateKeeps(s: State, params: Params, a: Answers, config: Config)
    requires Invariant(s, config) && WellFormed(Initiate(params, a), config)
    ensures Invariant(Initiated(s, params, a, config), config)
  {
    if Check(params, s.pending, config).None? {
      var order := OrderOf(params, config);
      ApprovalsKeepRules(s.log, order, a);
      var log := s.log + Approvals(order, a).0;
      if Reaches(s.pending, params, a, config) {
        FlightKeepsRules(log, a.hash.value, order, a.receipt == Success);
        if a.receipt == Success {
          var confirmed := s.(log := log + [Submit(a.hash.value, order)] + [ReceiptRead(a.hash.value, true)]);
          PersistKeeps(confirmed, RecordOf(params, a.hash.value, config), a.reply, config);
        }
      }
    }
  }

  /** Every step keeps the discipline: submitting, recovering, and reloading the page at any moment. */
  lemma StepKeepsInvariant(s: State, e: Event, config: Config)
    requires Invariant(s, config) && WellFormed(e, config)
    ensures Invariant(Step(s, e, config), config)
    ensures e.Reload? ==> Step(s, e, config) == s
  {
    match e
    case Initiate(params, a) =>
      InitiateKeeps(s, params, a, config);
    case Recover(reply) =>
      if s.pending.Some? {
        SentKeepsRules(s.log, s.pending.value, reply);
      }
    case Reload =>
      if s.pending.Some? {
        StoredIsLoaded(s.pending.value, config);
      }
  }

  const FRESH := State(None, None, [])

  predicate AllWellFormed(events: seq<Event>, config: Config) {
    forall i :: 0 <= i < |events| ==> WellFormed(events[i], config)
  }

  lemma {:induction false} RunKeepsInvariant(s: State, events: seq<Event>, config: Config)
    requires Invariant(s, config) && AllWellFormed(events, config)
    ensures Invariant(Run(s, events, config), config)
    decreases |events|
  {
    if events != [] {
      StepKeepsInvariant(s, events[0], config);
      RunKeepsInvariant(Step(s, events[0], config), events[1..], config);
    }
  }

  // ---------------------------------------------------------------- what the rules mean

  function Records(log: seq<Entry>): seq<Pending> {
    if log == [] then []
    else Records(log[..|log| - 1]) + if log[|log| - 1].Record? then [log[|log| - 1].pending] else []
  }

  function Acknowledgements(log: seq<Entry>): seq<Pending> {
    if log == [] then []
    else Acknowledgements(log[..|log| - 1]) + if log[|log| - 1].Acknowledge? then [log[|log| - 1].pending] else []
  }

  /** The last record that has not been acknowledged since. */
  function OpenRecord(log: seq<Entry>): Option<Pending> {
    if log == [] then None
    else
      match log[|log| - 1]
      case Record(p) => Some(p)
      case Acknowledge(_) => None
      case _ => OpenRecord(log[..|log| - 1])
  }

  function AsSeq(p: Option<Pending>): seq<Pending> {
    if p.Some? then [p.value] else []
  }

  /** In a log that keeps the rules, the recorded payments are the acknowledged ones, in order, and then the open one. */
  lemma {:induction false} RecordsAreAcknowledgedOnce(log: seq<Entry>)
    requires Replay(log).Some?
    ensures Replay(log).value.open == OpenRecord(log)
    ensures Records(log) == Acknowledgements(log) + AsSeq(OpenRecord(log))
  {
    if log != [] {
      RecordsAreAcknowledgedOnce(log[..|log| - 1]);
    }
  }

  /** The API has processed the record made at position `i`. */
  ghost predicate AcceptedSince(log: seq<Entry>, i: nat)
    requires i < |log| && log[i].Record?
  {
    exists k :: i < k < |log| && log[k] == Accept(log[i].pending)
  }

  /** Only a record that is still open may not have been processed by the API. */
  lemma {:induction false} OnlyOpenMayBeUnprocessed(log: seq<Entry>, i: nat)
    requires Replay(log).Some? && i < |log| && log[i].Record?
    ensures var o := Replay(log).value;
            AcceptedSince(log, i) || (o.open == Some(log[i].pending) && !o.accepted)
  {
    var front := log[..|log| - 1];
    if i < |front| {
      OnlyOpenMayBeUnprocessed(front, i);
      if AcceptedSince(front, i) {
        var k :| i < k < |front| && front[k] == Accept(front[i].pending);
        assert log[k] == Accept(log[i].pending);
      } else if log[|front|].Accept? {
        assert log[|front|] == Accept(log[i].pending);
      }
    }
  }

  lemma {:induction false} PrefixKeepsRules(log: seq<Entry>, n: nat)
    requires Replay(log).Some? && n <= |log|
    ensures Replay(log[..n]).Some?
    ensures n < |log| ==> Observe(Replay(log[..n]).value, log[n]).Some?
  {
    if n == |log| {
      assert log[..n] == log;
    } else if n < |log| - 1 {
      PrefixKeepsRules(log[..|log| - 1], n);
      assert log[..|log| - 1][..n] == log[..n];
    }
  }

  /**
   * Over every sequential run: every confirmed and recorded payment is acknowledged to the browser exactly once and in
   * order, except that the last one may still be pending, in memory and in storage.
   */
  lemma EveryRecordIsReconciledOnce(events: seq<Event>, config: Config)
    requires AllWellFormed(events, config)
    ensures var s := Run(FRESH, events, config);
            && Records(s.log) == Acknowledgements(s.log) + AsSeq(s.pending)
            && s.pending == OpenRecord(s.log)
            && s.stored == (if s.pending.Some? then Some(Stored(s.pending.value)) else None)
  {
    RunKeepsInvariant(FRESH, events, config);
    RecordsAreAcknowledgedOnce(Run(FRESH, events, config).log);
  }

  /** Before another payment is submitted, the API has processed every recorded one at least once, and nothing is open. */
  lemma ProcessedBeforeNextSubmission(events: seq<Event>, config: Config, i: nat, j: nat)
    requires AllWellFormed(events, config)
    requires var log := Run(FRESH, events, config).log; i < j < |log| && log[i].Record? && log[j].Submit?
    ensures var log := Run(FRESH, events, config).log;
            OpenRecord(log[..j]).None? && AcceptedSince(log[..j], i)
  {
    var log := Run(FRESH, events, config).log;
    RunKeepsInvariant(FRESH, events, config);
    PrefixKeepsRules(log, j);
    RecordsAreAcknowledgedOnce(log[..j]);
    OnlyOpenMayBeUnprocessed(log[..j], i);
  }

  predicate ConcernsRecord(e: Entry) {
    e.Send? || e.Accept? || e.Acknowledge?
  }

  /** Whatever is sent to the API, processed by it or acknowledged by it is the open record, unchanged. */
  lemma OnlyTheOpenRecordIsSent(events: seq<Event>, config: Config, i: nat)
    requires AllWellFormed(events, config)
    requires var log := Run(FRESH, events, config).log; i < |log| && ConcernsRecord(log[i])
    ensures var log := Run(FRESH, events, config).log;
            OpenRecord(log[..i]) == Some(log[i].pending)
  {
    RunKeepsInvariant(FRESH, events, config);
    RulesNameTheOpenRecord(Run(FRESH, events, config).log, i);
  }

  lemma RulesNameTheOpenRecord(log: seq<Entry>, i: nat)
    requires Replay(log).Some? && i < |log| && ConcernsRecord(log[i])
    ensures OpenRecord(log[..i]) == Some(log[i].pending)
  {
    PrefixKeepsRules(log, i);
    RecordsAreAcknowledgedOnce(log[..i]);
  }

  /** While a record is pending, another payment is refused without any effect, and recovery sends that record. */
  lemma PendingBlocksPayments(s: State, params: Params, a: Answers, reply: Reply, config: Config)
    requires s.pending.Some?
    ensures Step(s, Initiate(params, a), config) == s
    ensures Step(s, Recover(reply), config).log == s.log + Sent(s.pending.value, reply)
    ensures Step(s, Recover(reply), config).pending == if reply.Answered? then None else s.pending
  {
  }

  /** Entries that only repeat the sending of one record. */
  predicate OnlyResends(entries: seq<Entry>, p: Pending) {
    forall i :: 0 <= i < |entries| ==> entries[i] == Send(p) || entries[i] == Accept(p)
  }

  /** An answer is seen in the run. */
  predicate SeesAnswer(events: seq<Event>) {
    exists i :: 0 <= i < |events| && events[i].Recover? && events[i].reply.Answered?
  }

  /**
   * A pending record survives any run of new payments, recoveries and reloads in which no recovery sees the API's answer,
   * and all that happens outside meanwhile is that this record is sent again.
   */
  lemma {:induction false} PendingSurvivesUntilAcknowledged(s: State, events: seq<Event>, config: Config)
    requires Invariant(s, config) && s.pending.Some? && AllWellFormed(events, config) && !SeesAnswer(events)
    ensures var t := Run(s, events, config);
            && t.pending == s.pending && t.stored == s.stored
            && s.log <= t.log && OnlyResends(t.log[|s.log|..], s.pending.value)
    decreases |events|
  {
    if events != [] {
      var u := Step(s, events[0], config);
      assert events[0].Recover? ==> !events[0].reply.Answered?;
      PendingSurvivesStep(s, events[0], config);
      assert forall i :: 0 <= i < |events[1..]| ==> events[1..][i] == events[i + 1];
      PendingSurvivesUntilAcknowledged(u, events[1..], config);
      ResendsJoin(s.log, u.log, Run(u, events[1..], config).log, s.pending.value);
    }
  }

  lemma PendingSurvivesStep(s: State, e: Event, config: Config)
    requires Invariant(s, config) && s.pending.Some? && WellFormed(e, config)
    requires e.Recover? ==> !e.reply.Answered?
    ensures var u := Step(s, e, config);
            && Invariant(u, config) && u.pending == s.pending && u.stored == s.stored
            && s.log <= u.log && OnlyResends(u.log[|s.log|..], s.pending.value)
  {
    StepKeepsInvariant(s, e, config);
    if e.Recover? {
      assert Step(s, e, config).log[|s.log|..] == Sent(s.pending.value, e.reply);
    }
  }

  lemma ResendsJoin(a: seq<Entry>, b: seq<Entry>, c: seq<Entry>, p: Pending)
    requires a <= b && b <= c && OnlyResends(b[|a|..], p) && OnlyResends(c[|b|..], p)
    ensures a <= c && OnlyResends(c[|a|..], p)
  {
    assert c[|a|..] == b[|a|..] + c[|b|..];
  }

  // ---------------------------------------------------------------- what is asked, submitted and recorded

  ghost predicate IsZeroAddress(s: string) {
    |s| == 42 && s[0] == '0' && s[1] == 'x' && forall i :: 2 <= i < 42 ==> s[i] == '0'
  }

  /** What it takes for a payment to pass the checks. */
  ghost predicate Payable(params: Params, pending: Option<Pending>, config: Config) {
    && (params.currency == "USDC" || params.currency == "USDT") && config.tokenConfigured(params.currency)
    && config.isAddress(params.recipient) && !IsZeroAddress(Lower(params.recipient)) && Lower(params.recipient) != Lower(config.address)
    && config.contractIsAddress && config.clientAvailable && pending.None?
    && IsDecimal(params.amount) && |Read(params.amount).fraction| <= 6 && DecimalToSmallestUnits(params.amount, 6).Ok?
    && 3 <= |config.trim(params.purpose)| <= 500
  }

  /** The order is for what was asked: the amount in millionths of the token, and the hash of the trimmed purpose. */
  ghost predicate OrderFor(params: Params, order: Order, config: Config) {
    && order.recipient == params.recipient && order.currency == params.currency
    && DecimalToSmallestUnits(params.amount, 6) == Ok(Digits(order.amount))
    && order.purposeHash == config.purposeHash(config.trim(params.purpose))
  }

  /** The record is of what was asked. */
  ghost predicate RecordFor(params: Params, p: Pending, config: Config) {
    && p.recipient == params.recipient && p.amount == params.amount && p.currency == params.currency
    && p.purposeHash == config.purposeHash(config.trim(params.purpose))
  }

  /** The allowance is the asked amount already, or is reset if necessary and approved. */
  ghost predicate AllowanceMade(params: Params, a: Answers) {
    && a.allowance.Some?
    && (|| DecimalToSmallestUnits(params.amount, 6) == Ok(Digits(a.allowance.value))
        || ((a.allowance.value > 0 ==> a.reset == Some(Success)) && a.approve == Some(Success)))
  }

  lemma ZeroAddressIs(s: string)
    ensures s == ZERO_ADDRESS <==> IsZeroAddress(s)
  {
    if IsZeroAddress(s) {
      assert s == "0x" + s[2..];
      assert s[2..] == Repeat('0', 40);
    }
  }

  lemma UnitsAreMillionths(params: Params)
    requires IsAmount(params.amount)
    ensures DecimalToSmallestUnits(params.amount, 6) == if Units6(params) == 0 then Err(NotPositive) else Ok(Digits(Units6(params)))
  {
    DecimalReads(params.amount);
  }

  /** The checks pass exactly for payable payments. */
  lemma ChecksExactly(params: Params, pending: Option<Pending>, config: Config)
    ensures Check(params, pending, config).None? <==> Payable(params, pending, config)
  {
    ZeroAddressIs(Lower(params.recipient));
    if IsAmount(params.amount) {
      UnitsAreMillionths(params);
    }
  }

  lemma OrderIsForParams(params: Params, pending: Option<Pending>, config: Config)
    requires Check(params, pending, config).None?
    ensures OrderFor(params, OrderOf(params, config), config)
  {
    UnitsAreMillionths(params);
  }

  /** A call submits exactly when the payment is payable, its allowance is made, and the wallet sends it. */
  lemma ReachesExactly(pending: Option<Pending>, params: Params, a: Answers, config: Config)
    ensures Reaches(pending, params, a, config) <==> Payable(params, pending, config) && AllowanceMade(params, a) && a.hash.Some?
  {
    ChecksExactly(params, pending, config);
    if Check(params, pending, config).None? {
      UnitsAreMillionths(params);
      ValueOfDigits(Units6(params));
      if a.allowance.Some? {
        ValueOfDigits(a.allowance.value);
      }
    }
  }

  /** Entry `i` comes from the event `e`, and says what it asked for. */
  ghost predicate AskedBy(log: seq<Entry>, i: nat, e: Event, config: Config)
    requires i < |log|
  {
    match log[i]
    case Approve(token, n) =>
      n == 0 || (e.Initiate? && token == e.params.currency && DecimalToSmallestUnits(e.params.amount, 6) == Ok(Digits(n)))
    case Submit(hash, order) =>
      e.Initiate? && e.answers.hash == Some(hash) && Payable(e.params, None, config) && OrderFor(e.params, order, config)
    case Record(p) =>
      && e.Initiate? && e.answers.hash == Some(p.txHash) && e.answers.receipt == Success && RecordFor(e.params, p, config)
      && i >= 2 && log[i - 1] == ReceiptRead(p.txHash, true)
      && log[i - 2].Submit? && log[i - 2].hash == p.txHash && OrderFor(e.params, log[i - 2].order, config)
    case Accept(p) => i >= 1 && log[i - 1] == Send(p)
    case Acknowledge(p) => i >= 2 && log[i - 1] == Accept(p) && log[i - 2] == Send(p)
    case _ => true
  }

  ghost predicate AllAskedBy(log: seq<Entry>, e: Event, config: Config) {
    forall i :: 0 <= i < |log| ==> AskedBy(log, i, e, config)
  }

  ghost predicate AskedByOne(log: seq<Entry>, i: nat, events: seq<Event>, config: Config)
    requires i < |log|
  {
    exists k :: 0 <= k < |events| && AskedBy(log, i, events[k], config)
  }

  ghost predicate Asked(log: seq<Entry>, events: seq<Event>, config: Config) {
    forall i :: 0 <= i < |log| ==> AskedByOne(log, i, events, config)
  }

  lemma ApprovalsAreAsked(params: Params, a: Answers, config: Config)
    requires Check(params, None, config).None?
    ensures AllAskedBy(Approvals(OrderOf(params, config), a).0, Initiate(params, a), config)
  {
    OrderIsForParams(params, None, config);
    ApprovalShapes(OrderOf(params, config), a);
  }

  /** The entries around one submission, as in `AroundFlight`. */
  lemma FlightIsAsked(params: Params, a: Answers, config: Config)
    requires Reaches(None, params, a, config)
    ensures var (before, flight, after) := AroundFlight(params, a, config);
            AllAskedBy(before + flight + after, Initiate(params, a), config)
  {
    var e := Initiate(params, a);
    var (before, flight, after) := AroundFlight(params, a, config);
    var log := before + flight + after;
    ApprovalsAreAsked(params, a, config);
    ChecksExactly(params, None, config);
    OrderIsForParams(params, None, config);
    forall i | 0 <= i < |log|
      ensures AskedBy(log, i, e, config)
    {
      if i < |before| {
        assert log[i] == before[i] && AskedBy(before, i, e, config);
      } else if i < |before| + |flight| {
        assert log[i] == flight[i - |before|];
      } else {
        assert log[i] == after[i - |before| - |flight|];
        assert log[|before|] == flight[0] && log[|before| + 1] == flight[1];
      }
    }
  }

  /** What one call adds to the log is what it was asked for. */
  lemma StepIsAsked(s: State, e: Event, config: Config) returns (added: seq<Entry>)
    ensures Step(s, e, config).log == s.log + added && AllAskedBy(added, e, config)
  {
    added := [];
    assert s.log + [] == s.log;
    if e.Initiate? && Check(e.params, s.pending, config).None? {
      if Reaches(s.pending, e.params, e.answers, config) {
        var (before, flight, after) := AroundFlight(e.params, e.answers, config);
        FlightIsAdded(s, e.params, e.answers, config);
        FlightIsAsked(e.params, e.answers, config);
        added := before + flight + after;
      } else {
        added := Approvals(OrderOf(e.params, config), e.answers).0;
        ApprovalsAreAsked(e.params, e.answers, config);
      }
    } else if e.Recover? && s.pending.Some? {
      added := Sent(s.pending.value, e.reply);
    }
  }

  lemma AskedGrows(log: seq<Entry>, past: seq<Event>, added: seq<Entry>, e: Event, config: Config)
    requires Asked(log, past, config) && AllAskedBy(added, e, config)
    ensures Asked(log + added, past + [e], config)
  {
    var whole, events := log + added, past + [e];
    forall i | 0 <= i < |whole|
      ensures AskedByOne(whole, i, events, config)
    {
      if i < |log| {
        assert AskedByOne(log, i, past, config);
        var k :| 0 <= k < |past| && AskedBy(log, i, past[k], config);
        assert AskedBy(whole, i, events[k], config);
      } else {
        assert AskedBy(added, i - |log|, e, config);
        assert AskedBy(whole, i, events[|past|], config);
      }
    }
  }

  lemma {:induction false} RunIsAsked(s: State, past: seq<Event>, events: seq<Event>, config: Config)
    requires Asked(s.log, past, config)
    ensures Asked(Run(s, events, config).log, past + events, config)
    decreases |events|
  {
    if events == [] {
      assert past + events == past;
    } else {
      var added := StepIsAsked(s, events[0], config);
      AskedGrows(s.log, past, added, events[0], config);
      RunIsAsked(Step(s, events[0], config), past + [events[0]], events[1..], config);
      assert past + [events[0]] + events[1..] == past + events;
    }
  }

  /**
   * Over every run: each approval is zero or the exact amount of a call, each submission is the payable order of a call, to its
   * recipient, in its token and for its amount in millionths, and each record follows the submission and the read receipt it is of,
   * and holds that call's hash, recipient, amount, currency and hash of its trimmed purpose. What the API processes was just sent.
   */
  lemma EveryEntryWasAsked(events: seq<Event>, config: Config)
    ensures Asked(Run(FRESH, events, config).log, events, config)
  {
    RunIsAsked(FRESH, [], events, config);
    assert [] + events == events;
  }

  // ---------------------------------------------------------------- at most one submission at a time

  function MarkOf(e: Entry): Mark {
    match e
    case Submit(_, _) => Launch
    case ReceiptRead(_, _) => Settle
    case _ => Other
  }

  function Marks(log: seq<Entry>): (marks: seq<Mark>)
    ensures |marks| == |log| && forall i :: 0 <= i < |log| ==> marks[i] == MarkOf(log[i])
  {
    seq(|log|, i requires 0 <= i < |log| => MarkOf(log[i]))
  }

  /** Whether a call submits a payment, and whether its receipt is then read. */
  function KindOf(s: State, e: Event, config: Config): Kind {
    if !e.Initiate? || !Reaches(s.pending, e.params, e.answers, config) then Grounded
    else if e.answers.receipt.Unread? then LeftUnread
    else Landed
  }

  function Kinds(s: State, events: seq<Event>, config: Config): (kinds: seq<Kind>)
    ensures |kinds| == |events|
    decreases |events|
  {
    if events == [] then [] else [KindOf(s, events[0], config)] + Kinds(Step(s, events[0], config), events[1..], config)
  }

  lemma GroundedEntries(log: seq<Entry>)
    requires forall i :: 0 <= i < |log| ==> MarkOf(log[i]).Other?
    ensures Fits(Marks(log), Grounded)
  {
    OthersAreGrounded(Marks(log));
  }

  /** What one call adds to the log: nothing but other entries, or those around one submission. */
  lemma AddedMarks(s: State, e: Event, config: Config) returns (added: seq<Entry>)
    ensures Step(s, e, config).log == s.log + added
    ensures Fits(Marks(added), KindOf(s, e, config))
  {
    if KindOf(s, e, config).Grounded? {
      added := AddedGrounded(s, e, config);
    } else {
      added := AddedFlight(s, e.params, e.answers, config);
    }
  }

  lemma AddedGrounded(s: State, e: Event, config: Config) returns (added: seq<Entry>)
    requires KindOf(s, e, config).Grounded?
    ensures Step(s, e, config).log == s.log + added
    ensures Fits(Marks(added), Grounded)
  {
    added := [];
    assert s.log + [] == s.log;
    if e.Initiate? && Check(e.params, s.pending, config).None? {
      added := Approvals(OrderOf(e.params, config), e.answers).0;
    } else if e.Recover? && s.pending.Some? {
      added := Sent(s.pending.value, e.reply);
    }
    GroundedEntries(added);
  }

  /** The entries around one submission: approvals before it, its receipt if it is read, and a record if it succeeded. */
  function AroundFlight(params: Params, a: Answers, config: Config): (seq<Entry>, seq<Entry>, seq<Entry>)
    requires IsAmount(params.amount) && a.hash.Some?
  {
    var order, hash := OrderOf(params, config), a.hash.value;
    var p := RecordOf(params, hash, config);
    (Approvals(order, a).0,
     if a.receipt.Unread? then [Submit(hash, order)] else [Submit(hash, order), ReceiptRead(hash, a.receipt == Success)],
     if a.receipt == Success then [Record(p)] + Sent(p, a.reply) else [])
  }

  lemma FlightIsAdded(s: State, params: Params, a: Answers, config: Config)
    requires Reaches(s.pending, params, a, config)
    ensures var (before, flight, after) := AroundFlight(params, a, config);
            Initiated(s, params, a, config).log == s.log + (before + flight + after)
  {
    var (before, flight, after) := AroundFlight(params, a, config);
    Joined(s.log, before, flight);
    Joined(s.log, before + flight, after);
  }

  lemma AddedFlight(s: State, params: Params, a: Answers, config: Config) returns (added: seq<Entry>)
    requires Reaches(s.pending, params, a, config)
    ensures Initiated(s, params, a, config).log == s.log + added
    ensures Fits(Marks(added), if a.receipt.Unread? then LeftUnread else Landed)
  {
    var (before, flight, after) := AroundFlight(params, a, config);
    FlightIsAdded(s, params, a, config);
    added := before + flight + after;
    GroundedEntries(before);
    GroundedEntries(after);
    LaunchFits(Marks(before), Marks(after));
    assert Marks(flight) == if a.receipt.Unread? then [Launch] else [Launch, Settle];
    MarksJoin(before, flight);
    MarksJoin(before + flight, after);
  }

  lemma MarksJoin(a: seq<Entry>, b: seq<Entry>)
    ensures Marks(a + b) == Marks(a) + Marks(b)
  {
  }

  lemma {:induction false} FlightsOfRun(s: State, flying: bool, events: seq<Event>, config: Config)
    returns (added: seq<Entry>)
    ensures Run(s, events, config).log == s.log + added
    ensures SingleFlight(flying, Marks(added)) <==> NoneAfterUnread(flying, Kinds(s, events, config))
    ensures Unsettled(Marks(added)) >= 0
    ensures Unsettled(Marks(added)) == 0 <==> LeftUnread !in Kinds(s, events, config)
    decreases |events|
  {
    added := [];
    if events == [] {
      assert s.log + [] == s.log;
    } else {
      var u := Step(s, events[0], config);
      var kind, rest := KindOf(s, events[0], config), Kinds(u, events[1..], config);
      var first := AddedMarks(s, events[0], config);
      var more := FlightsOfRun(u, InFlight(flying, Marks(first)), events[1..], config);
      KindInFront(flying, kind, rest, Marks(first));
      MarksConcat(flying, Marks(first), Marks(more));
      MarksJoin(first, more);
      Joined(s.log, first, more);
      added := first + more;
      assert LeftUnread in [kind] + rest <==> kind.LeftUnread? || LeftUnread in rest;
    }
  }

  /**
   * When the code submits at most once: over every run no payment is submitted while an earlier submission is unsettled,
   * if and only if no call that submits comes after one whose receipt stayed unread. And every submission is settled by
   * a read receipt if and only if no receipt stayed unread.
   */
  lemma SubmitsOnceExactlyUnlessUnread(events: seq<Event>, config: Config)
    ensures var log := Run(FRESH, events, config).log;
            var kinds := Kinds(FRESH, events, config);
            && (SingleFlight(false, Marks(log))
                <==> forall i, j :: 0 <= i < j < |kinds| && kinds[i].LeftUnread? ==> kinds[j].Grounded?)
            && (Unsettled(Marks(log)) == 0 <==> LeftUnread !in kinds)
  {
    var added := FlightsOfRun(FRESH, false, events, config);
    assert [] + added == added;
  }

  // ---------------------------------------------------------------- lost replies

  /** The API processes the record that a call sends, but the browser does not see the answer. */
  predicate LosesReply(s: State, e: Event, config: Config) {
    match e
    case Initiate(params, a) => Reaches(s.pending, params, a, config) && a.receipt == Success && a.reply.Processed?
    case Recover(reply) => s.pending.Some? && reply.Processed?
    case Reload => false
  }

  function LostReplies(s: State, events: seq<Event>, config: Config): nat
    decreases |events|
  {
    if events == [] then 0
    else (if LosesReply(s, events[0], config) then 1 else 0) + LostReplies(Step(s, events[0], config), events[1..], config)
  }

  function WeightOf(e: Entry): int {
    if e.Accept? then 1 else if e.Acknowledge? then -1 else 0
  }

  /** How often the API has processed a record, less how often that was acknowledged. */
  function Excess(log: seq<Entry>): int {
    if log == [] then 0 else WeightOf(log[0]) + Excess(log[1..])
  }

  lemma {:induction false} ExcessConcat(a: seq<Entry>, b: seq<Entry>)
    ensures Excess(a + b) == Excess(a) + Excess(b)
  {
    if a == [] {
      assert a + b == b;
    } else {
      assert (a + b)[0] == a[0] && (a + b)[1..] == a[1..] + b;
      ExcessConcat(a[1..], b);
    }
  }

  lemma {:induction false} NoExcess(log: seq<Entry>)
    requires forall i :: 0 <= i < |log| ==> WeightOf(log[i]) == 0
    ensures Excess(log) == 0
  {
    if log != [] {
      NoExcess(log[1..]);
    }
  }

  lemma SentExcess(p: Pending, reply: Reply)
    ensures Excess(Sent(p, reply)) == if reply.Processed? then 1 else 0
  {
    NoExcess([Send(p)]);
    ExcessConcat([Send(p)], [Accept(p)]);
    ExcessConcat([Send(p)] + [Accept(p)], [Acknowledge(p)]);
    assert [Accept(p)][1..] == [] && [Acknowledge(p)][1..] == [];
    assert [Send(p)] + [Accept(p)] == [Send(p), Accept(p)];
    assert [Send(p)] + [Accept(p)] + [Acknowledge(p)] == [Send(p), Accept(p), Acknowledge(p)];
  }

  lemma StepExcess(s: State, e: Event, config: Config)
    ensures Excess(Step(s, e, config).log) == Excess(s.log) + if LosesReply(s, e, config) then 1 else 0
  {
    match e
    case Initiate(params, a) =>
      if Reaches(s.pending, params, a, config) {
        FlightExcess(s, params, a, config);
      } else if Check(params, s.pending, config).None? {
        NoExcess(Approvals(OrderOf(params, config), a).0);
        ExcessConcat(s.log, Approvals(OrderOf(params, config), a).0);
      }
    case Recover(reply) =>
      if s.pending.Some? {
        SentExcess(s.pending.value, reply);
        ExcessConcat(s.log, Sent(s.pending.value, reply));
      }
    case Reload =>
  }

  lemma FlightExcess(s: State, params: Params, a: Answers, config: Config)
    requires Reaches(s.pending, params, a, config)
    ensures Excess(Initiated(s, params, a, config).log)
            == Excess(s.log) + if a.receipt == Success && a.reply.Processed? then 1 else 0
  {
    var (before, flight, after) := AroundFlight(params, a, config);
    var p := RecordOf(params, a.hash.value, config);
    FlightIsAdded(s, params, a, config);
    ExcessConcat(s.log, before + flight + after);
    ExcessConcat(before + flight, after);
    NoExcess(before + flight);
    if a.receipt == Success {
      ExcessConcat([Record(p)], Sent(p, a.reply));
      NoExcess([Record(p)]);
      SentExcess(p, a.reply);
    }
  }

  /** Over every run the API processes records exactly as often as they are acknowledged and replies are lost. */
  lemma {:induction false} ProcessedOncePerAcknowledgementAndLoss(s: State, events: seq<Event>, config: Config)
    ensures Excess(Run(s, events, config).log) == Excess(s.log) + LostReplies(s, events, config)
    decreases |events|
  {
    if events != [] {
      StepExcess(s, events[0], config);
      ProcessedOncePerAcknowledgementAndLoss(Step(s, events[0], config), events[1..], config);
    }
  }

  // ---------------------------------------------------------------- processed at most once

  /** Processing a record launches, recording the next one settles. */
  function ProcessingMark(e: Entry): Mark {
    if e.Accept? then Launch else if e.Record? then Settle else Other
  }

  function ProcessingMarks(log: seq<Entry>): (marks: seq<Mark>)
    ensures |marks| == |log| && forall i :: 0 <= i < |log| ==> marks[i] == ProcessingMark(log[i])
  {
    seq(|log|, i requires 0 <= i < |log| => ProcessingMark(log[i]))
  }

  /** The API processes no record twice: between two acceptances there is always another record. */
  ghost predicate ProcessesOnce(log: seq<Entry>) {
    forall i, j :: 0 <= i < j < |log| && log[i].Accept? && log[j].Accept? ==> exists k :: i < k < j && log[k].Record?
  }

  /** A record has been processed since the last one was made; `before` says whether one was at the start. */
  lemma {:induction false} InFlightMeansProcessed(marks: seq<Mark>, before: bool)
    ensures InFlight(before, marks)
            <==> (exists i :: 0 <= i < |marks| && marks[i].Launch? && forall k :: i < k < |marks| ==> !marks[k].Settle?)
                 || (before && forall k :: 0 <= k < |marks| ==> !marks[k].Settle?)
  {
    if marks != [] {
      var front, last := marks[..|marks| - 1], marks[|marks| - 1];
      InFlightMeansProcessed(front, before);
      assert marks == front + [last];
      MarksConcat(before, front, [last]);
      assert [last][1..] == [];
      assert forall k :: 0 <= k < |front| ==> marks[k] == front[k];
      if last.Launch? {
        assert marks[|front|].Launch?;
      }
    }
  }

  /** The observer and the plain reading agree. */
  lemma {:induction false} SingleFlightMeansProcessesOnce(log: seq<Entry>)
    ensures SingleFlight(false, ProcessingMarks(log)) <==> ProcessesOnce(log)
  {
    if log != [] {
      var front, last := log[..|log| - 1], log[|log| - 1];
      SingleFlightMeansProcessesOnce(front);
      var marks := ProcessingMarks(front);
      assert ProcessingMarks(log) == marks + [ProcessingMark(last)];
      MarksConcat(false, marks, [ProcessingMark(last)]);
      assert [ProcessingMark(last)][1..] == [];
      InFlightMeansProcessed(marks, false);
      OneMoreAcceptance(log);
    }
  }

  lemma OneMoreAcceptance(log: seq<Entry>)
    requires log != []
    ensures var front := log[..|log| - 1];
            ProcessesOnce(log) <==>
            && ProcessesOnce(front)
            && (log[|front|].Accept? ==>
                  !exists i :: 0 <= i < |front| && ProcessingMarks(front)[i].Launch?
                    && forall k :: i < k < |front| ==> !ProcessingMarks(front)[k].Settle?)
  {
    var front := log[..|log| - 1];
    assert forall i :: 0 <= i < |front| ==> front[i] == log[i];
    assert forall i :: 0 <= i < |front| ==> (ProcessingMarks(front)[i].Launch? <==> log[i].Accept?);
    assert forall i :: 0 <= i < |front| ==> (ProcessingMarks(front)[i].Settle? <==> log[i].Record?);
  }

  /** A recovery sends the pending record and reaches the API. */
  predicate RecoversAtApi(s: State, e: Event) {
    e.Recover? && s.pending.Some? && !e.reply.Refused?
  }

  /** Whether the record that is pending after an event has already had a lost reply. */
  predicate HasLostReply(lost: bool, s: State, e: Event, config: Config) {
    Step(s, e, config).pending.Some? && (lost || LosesReply(s, e, config))
  }

  /** No recovery reaches the API while the pending record has already had a lost reply. */
  predicate NeverRecoversAfterLoss(lost: bool, s: State, events: seq<Event>, config: Config)
    decreases |events|
  {
    events == [] ||
    (!(lost && RecoversAtApi(s, events[0]))
     && NeverRecoversAfterLoss(HasLostReply(lost, s, events[0], config), Step(s, events[0], config), events[1..], config))
  }

  lemma ProcessingJoin(a: seq<Entry>, b: seq<Entry>)
    ensures ProcessingMarks(a + b) == ProcessingMarks(a) + ProcessingMarks(b)
  {
  }

  /** Entries that neither process nor make a record. */
  lemma QuietEntries(log: seq<Entry>, processed: bool)
    requires forall i :: 0 <= i < |log| ==> ProcessingMark(log[i]).Other?
    ensures SingleFlight(processed, ProcessingMarks(log)) && InFlight(processed, ProcessingMarks(log)) == processed
  {
    OthersAreGrounded(ProcessingMarks(log));
  }

  lemma SentProcessing(p: Pending, reply: Reply, processed: bool)
    ensures SingleFlight(processed, ProcessingMarks(Sent(p, reply))) <==> !(processed && !reply.Refused?)
    ensures InFlight(processed, ProcessingMarks(Sent(p, reply))) <==> processed || !reply.Refused?
  {
    var marks := ProcessingMarks(Sent(p, reply));
    var all: seq<Mark> := [Other, Launch, Other];
    assert marks == all[..|marks|];
    assert all[..1][1..] == [] && all[..2][1..] == [Launch] && [Launch][1..] == [];
    assert all[..3] == all && all[1..] == [Launch, Other] && all[1..][1..] == [Other] && all[1..][1..][1..] == [];
  }

  /** A confirmed payment: a new record, and its first sending. */
  lemma FlightProcessing(s: State, params: Params, a: Answers, config: Config, processed: bool) returns (added: seq<Entry>)
    requires Reaches(s.pending, params, a, config)
    ensures Initiated(s, params, a, config).log == s.log + added
    ensures SingleFlight(processed, ProcessingMarks(added))
    ensures InFlight(processed, ProcessingMarks(added)) == if a.receipt == Success then !a.reply.Refused? else processed
  {
    var (before, flight, after) := AroundFlight(params, a, config);
    FlightIsAdded(s, params, a, config);
    var quiet := before + flight;
    added := quiet + after;
    QuietEntries(quiet, processed);
    ProcessingJoin(quiet, after);
    MarksConcat(processed, ProcessingMarks(quiet), ProcessingMarks(after));
    if a.receipt == Success {
      RecordedProcessing(RecordOf(params, a.hash.value, config), a.reply, processed);
    }
  }

  lemma RecordedProcessing(p: Pending, reply: Reply, processed: bool)
    ensures var marks := ProcessingMarks([Record(p)] + Sent(p, reply));
            SingleFlight(processed, marks) && (InFlight(processed, marks) <==> !reply.Refused?)
  {
    ProcessingJoin([Record(p)], Sent(p, reply));
    MarksConcat(processed, ProcessingMarks([Record(p)]), ProcessingMarks(Sent(p, reply)));
    assert ProcessingMarks([Record(p)]) == [Settle] && [Settle][1..] == [];
    SentProcessing(p, reply, false);
  }

  /** What the entries of one event do to the processing of the pending record. */
  ghost predicate ProcessesAs(s: State, e: Event, config: Config, lost: bool, processed: bool, added: seq<Entry>) {
    && (SingleFlight(processed, ProcessingMarks(added)) <==> !(lost && RecoversAtApi(s, e)))
    && (Step(s, e, config).pending.Some? ==>
          InFlight(processed, ProcessingMarks(added)) == HasLostReply(lost, s, e, config))
  }

  lemma InitiateProcessing(s: State, params: Params, a: Answers, config: Config, lost: bool, processed: bool)
    returns (added: seq<Entry>)
    requires (lost ==> s.pending.Some?) && (s.pending.Some? ==> processed == lost)
    ensures Initiated(s, params, a, config).log == s.log + added
    ensures ProcessesAs(s, Initiate(params, a), config, lost, processed, added)
  {
    if Reaches(s.pending, params, a, config) {
      added := FlightProcessing(s, params, a, config, processed);
    } else {
      assert s.log + [] == s.log;
      added := if Check(params, s.pending, config).None? then Approvals(OrderOf(params, config), a).0 else [];
      QuietEntries(added, processed);
    }
  }

  lemma RecoverProcessing(s: State, reply: Reply, config: Config, lost: bool, processed: bool) returns (added: seq<Entry>)
    requires (lost ==> s.pending.Some?) && (s.pending.Some? ==> processed == lost)
    ensures Step(s, Recover(reply), config).log == s.log + added
    ensures ProcessesAs(s, Recover(reply), config, lost, processed, added)
  {
    if s.pending.Some? {
      added := Sent(s.pending.value, reply);
      SentProcessing(s.pending.value, reply, processed);
    } else {
      assert s.log + [] == s.log;
      added := [];
      QuietEntries(added, processed);
    }
  }

  lemma StepProcessing(s: State, e: Event, config: Config, lost: bool, processed: bool) returns (added: seq<Entry>)
    requires Invariant(s, config) && WellFormed(e, config) && (lost ==> s.pending.Some?) && (s.pending.Some? ==> processed == lost)
    ensures Step(s, e, config).log == s.log + added
    ensures ProcessesAs(s, e, config, lost, processed, added)
  {
    match e
    case Initiate(params, a) => added := InitiateProcessing(s, params, a, config, lost, processed);
    case Recover(reply) => added := RecoverProcessing(s, reply, config, lost, processed);
    case Reload =>
      StepKeepsInvariant(s, e, config);
      assert s.log + [] == s.log;
      added := [];
      QuietEntries(added, processed);
  }

  lemma {:induction false} ProcessingOfRun(s: State, events: seq<Event>, config: Config, lost: bool, processed: bool)
    returns (added: seq<Entry>)
    requires Invariant(s, config) && AllWellFormed(events, config)
    requires (lost ==> s.pending.Some?) && (s.pending.Some? ==> processed == lost)
    ensures Run(s, events, config).log == s.log + added
    ensures SingleFlight(processed, ProcessingMarks(added)) <==> NeverRecoversAfterLoss(lost, s, events, config)
    decreases |events|
  {
    added := [];
    if events == [] {
      assert s.log + [] == s.log;
    } else {
      var u, more := Step(s, events[0], config), HasLostReply(lost, s, events[0], config);
      var first := StepProcessing(s, events[0], config, lost, processed);
      StepKeepsInvariant(s, events[0], config);
      var rest := ProcessingOfRun(u, events[1..], config, more, InFlight(processed, ProcessingMarks(first)));
      MarksConcat(processed, ProcessingMarks(first), ProcessingMarks(rest));
      ProcessingJoin(first, rest);
      Joined(s.log, first, rest);
      added := first + rest;
    }
  }

  /**
   * When the API processes every record at most once: over every run, if and only if no recovery reaches the API while the
   * pending record has already had a lost reply.
   */
  lemma ProcessesOnceExactlyUnlessRecoveredAfterLoss(events: seq<Event>, config: Config)
    requires AllWellFormed(events, config)
    ensures ProcessesOnce(Run(FRESH, events, config).log) <==> NeverRecoversAfterLoss(false, FRESH, events, config)
  {
    var added := ProcessingOfRun(FRESH, events, config, false, false);
    assert [] + added == added;
    SingleFlightMeansProcessesOnce(added);
  }

  /** A run that processes one record twice: its reply is lost, and recovery sends it again. */
  lemma RecoveryAfterLossProcessesTwice(params: Params, hash: string, config: Config)
    requires Check(params, None, config).None?
    ensures var order := OrderOf(params, config);
            var p := RecordOf(params, hash, config);
            var events := [
              Initiate(params, Answers(Some(order.amount), None, None, Some(hash), Success, Processed)), Recover(Answered)];
            var log := Run(FRESH, events, config).log;
            && log == [AllowanceRead(order.currency, order.amount), Submit(hash, order), ReceiptRead(hash, true), Record(p)]
                      + [Send(p), Accept(p), Send(p), Accept(p), Acknowledge(p)]
            && !ProcessesOnce(log)
  {
    var order := OrderOf(params, config);
    var p := RecordOf(params, hash, config);
    var first := Initiate(params, Answers(Some(order.amount), None, None, Some(hash), Success, Processed));
    var s := Step(FRESH, first, config);
    assert s.log == [AllowanceRead(order.currency, order.amount), Submit(hash, order), ReceiptRead(hash, true), Record(p), Send(p), Accept(p)];
    assert [first, Recover(Answered)][1..] == [Recover(Answered)] && [Recover(Answered)][1..] == [];
    var t := Step(s, Recover(Answered), config);
    assert Run(FRESH, [first, Recover(Answered)], config) == Run(s, [Recover(Answered)], config) == t;
    assert t.log[5] == Accept(p) && t.log[7] == Accept(p) && !t.log[6].Record?;
  }

  /** A run that submits the same payment twice: nothing is recorded before a successful receipt. */
  lemma UnknownReceiptAllowsResubmission(params: Params, hash: string, again: string, reply: Reply, config: Config)
    requires Check(params, None, config).None?
    ensures var order := OrderOf(params, config);
            var events := [
              Initiate(params, Answers(Some(order.amount), None, None, Some(hash), Unread, reply)),
              Initiate(params, Answers(Some(order.amount), None, None, Some(again), Unread, reply))];
            var log := Run(FRESH, events, config).log;
            && log == [AllowanceRead(order.currency, order.amount), Submit(hash, order), AllowanceRead(order.currency, order.amount), Submit(again, order)]
            && !SingleFlight(false, Marks(log))
  {
    var order := OrderOf(params, config);
    var first := Initiate(params, Answers(Some(order.amount), None, None, Some(hash), Unread, reply));
    var second := Initiate(params, Answers(Some(order.amount), None, None, Some(again), Unread, reply));
    var s := Step(FRESH, first, config);
    assert s == State(None, None, [AllowanceRead(order.currency, order.amount), Submit(hash, order)]);
    assert [first, second][1..] == [second] && [second][1..] == [];
    assert Run(FRESH, [first, second], config) == Run(s, [second], config) == Step(s, second, config);
    SubmitsOnceExactlyUnlessUnread([first, second], config);
    var kinds := Kinds(FRESH, [first, second], config);
    assert kinds[0].LeftUnread? && kinds[1].LeftUnread?;
  }

  // ---------------------------------------------------------------- the hook

  /** `useInitiatePayment`: React state, the stored text, and what leaves the browser. */
  class Hook {
    const config: Config
    var pendingReconciliation: Option<Pending>
    var stored: Option<string>
    var log: seq<Entry>

    constructor (config: Config)
      ensures this.config == config && Abs() == FRESH
    {
      this.config := config;
      pendingReconciliation, stored, log := None, None, [];
    }

    function Abs(): State
      reads this
    {
      State(pendingReconciliation, stored, log)
    }

    /** `persistPending`, with working storage. */
    method PersistPending(pending: Option<Pending>)
      modifies this
      ensures Abs() == old(Abs()).(pending := pending, stored := if pending.Some? then Some(Stored(pending.value)) else None)
    {
      pendingReconciliation := pending;
      stored := if pending.Some? then Some(Stored(pending.value)) else None;
    }

    /** `reconcilePending` followed by `onSuccess`. */
    method ReconcilePending(pending: Pending, reply: Reply) returns (refusal: Option<Refusal>)
      modifies this
      ensures Abs() == Reconcile(old(Abs()), pending, reply)
      ensures refusal == if reply.Answered? then None else Some(ApiFailed)
    {
      log := log + Sent(pending, reply);
      if !reply.Answered? {
        return Some(ApiFailed);
      }
      PersistPending(None);
      return None;
    }

    /** The allowance phase. */
    method ApproveExactly(order: Order, a: Answers) returns (refusal: Option<Refusal>)
      modifies this
      ensures Abs() == old(Abs()).(log := old(log) + Approvals(order, a).0)
      ensures refusal.None? <==> Approvals(order, a).1
    {
      if a.allowance.None? {
        assert old(log) + [] == old(log);
        return Some(AllowanceFailed);
      }
      log := log + [AllowanceRead(order.currency, a.allowance.value)];
      if a.allowance.value != order.amount {
        if a.allowance.value > 0 {
          if a.reset.None? {
            return Some(ApprovalFailed);
          }
          log := log + [Approve(order.currency, 0)];
          assert log == old(log) + ([AllowanceRead(order.currency, a.allowance.value)] + [Approve(order.currency, 0)]);
          if a.reset.value != Success {
            return Some(ApprovalFailed);
          }
        }
        ghost var before := [AllowanceRead(order.currency, a.allowance.value)] + if a.allowance.value > 0 then [Approve(order.currency, 0)] else [];
        assert log == old(log) + before;
        if a.approve.None? {
          return Some(ApprovalFailed);
        }
        log := log + [Approve(order.currency, order.amount)];
        assert log == old(log) + (before + [Approve(order.currency, order.amount)]);
        if a.approve.value != Success {
          return Some(ApprovalFailed);
        }
      }
      return None;
    }

    /** `initiate`. */
    method Initiate(params: Params, a: Answers) returns (refusal: Option<Refusal>)
      modifies this
      ensures Abs() == Step(old(Abs()), Event.Initiate(params, a), config)
      ensures refusal.None? <==>
                && Payable(params, old(pendingReconciliation), config) && AllowanceMade(params, a) && a.hash.Some?
                && a.receipt == Success && a.reply.Answered?
      ensures !Payable(params, old(pendingReconciliation), config) ==> refusal == Check(params, old(pendingReconciliation), config)
    {
      ChecksExactly(params, pendingReconciliation, config);
      ReachesExactly(pendingReconciliation, params, a, config);
      refusal := Check(params, pendingReconciliation, config);
      if refusal.Some? {
        return;
      }
      var order := OrderOf(params, config);
      refusal := ApproveExactly(order, a);
      if refusal.Some? {
        return;
      }
      if a.hash.None? {
        return Some(NotSubmitted);
      }
      log := log + [Submit(a.hash.value, order)];
      if a.receipt.Unread? {
        return Some(NotConfirmed);
      }
      log := log + [ReceiptRead(a.hash.value, a.receipt == Success)];
      if a.receipt != Success {
        return Some(NotConfirmed);
      }
      var pending := RecordOf(params, a.hash.value, config);
      log := log + [Record(pending)];
      PersistPending(Some(pending));
      refusal := ReconcilePending(pending, a.reply);
    }

    /** `recover`. */
    method Recover(reply: Reply) returns (refusal: Option<Refusal>)
      modifies this
      ensures Abs() == Step(old(Abs()), Event.Recover(reply), config)
      ensures refusal.None? <==> old(pendingReconciliation).Some? && reply.Answered?
    {
      if pendingReconciliation.None? {
        return Some(NothingPending);
      }
      refusal := ReconcilePending(pendingReconciliation.value, reply);
    }

    /** The load effect after a reload of the page. */
    method Load()
      modifies this
      ensures Abs() == Step(old(Abs()), Reload, config)
    {
      pendingReconciliation := None;
      if stored.None? || stored.value == "" {
        return;
      }
      var parsed := Loaded(stored.value, config);
      if parsed.None? {
        stored := None;
      } else {
        pendingReconciliation := parsed;
      }
    }
  }
}
