/** Durable fixed-window rate limits (backend/src/middleware/auth.ts). */
module RateLimit {
  import opened Wrappers
  import opened RegistryAuthorization

  const WINDOW: int := 60000

  /** The tenant (or hashed public key) and scope that are limited together. */
  datatype Key = Key(owner: string, scope: string)

  datatype Slot = Slot(key: Key, windowStart: int)

  datatype Counter = Counter(count: nat, expiresAt: int)

  type Table = map<Slot, Counter>

  /** The tier store cleans up its own key only, the public store every key. */
  datatype Sweep = OwnKey | EveryKey

  predicate Reaches(sweep: Sweep, swept: Key, sweeper: Key) {
    sweep.EveryKey? || swept == sweeper
  }

  /** `deleteMany({ expiresAt: { lt: windowStart } })`. */
  function Swept(table: Table, sweep: Sweep, key: Key, windowStart: int): Table {
    map slot | slot in table && !(Reaches(sweep, slot.key, key) && table[slot].expiresAt < windowStart) :: table[slot]
  }

  /** The transaction of `consume`: cleanup, then create or increment. */
  function Consumed(table: Table, sweep: Sweep, key: Key, windowStart: int, expiresAt: int): Table {
    var kept := Swept(table, sweep, key, windowStart);
    var slot := Slot(key, windowStart);
    kept[slot := if slot in kept then Counter(kept[slot].count + 1, kept[slot].expiresAt) else Counter(1, expiresAt)]
  }

  /** `Math.floor(now / WINDOW) * WINDOW`. */
  function WindowOf(now: int): int {
    now / WINDOW * WINDOW
  }

  /** A window is the whole minute that holds a moment. */
  lemma WindowIsMinute(now: int)
    ensures WindowOf(now) <= now < WindowOf(now) + 60000 && WindowOf(now) % 60000 == 0
  {
  }

  /** A cleanup keeps the rows that have not expired by the start of the window; one for its own key keeps every other key's too. */
  lemma SweptExactly(table: Table, sweep: Sweep, key: Key, windowStart: int, slot: Slot)
    ensures slot in Swept(table, sweep, key, windowStart) <==>
              slot in table && (table[slot].expiresAt >= windowStart || (sweep.OwnKey? && slot.key != key))
    ensures slot in Swept(table, sweep, key, windowStart) ==> Swept(table, sweep, key, windowStart)[slot] == table[slot]
  {
  }

  // ---------------------------------------------------------------- histories of committed consumptions

  datatype Hit = Hit(key: Key, windowStart: int)

  function After(history: seq<Hit>, sweep: Sweep): Table {
    if history == [] then map[]
    else
      var last := history[|history| - 1];
      Consumed(After(history[..|history| - 1], sweep), sweep, last.key, last.windowStart, last.windowStart + WINDOW)
  }

  /** All committed hits on one slot: the plain per-window count. */
  function Hits(history: seq<Hit>, slot: Slot): nat {
    if history == [] then 0
    else Hits(history[..|history| - 1], slot) + (if IsOn(history[|history| - 1], slot) then 1 else 0)
  }

  predicate IsOn(hit: Hit, slot: Slot) {
    Slot(hit.key, hit.windowStart) == slot
  }

  /** A hit that removes the slot's row: it starts more than one window later. */
  predicate Removes(hit: Hit, slot: Slot, sweep: Sweep) {
    Reaches(sweep, slot.key, hit.key) && slot.windowStart + WINDOW < hit.windowStart
  }

  /** The count the table would return if this slot were consumed next. */
  function NextCount(history: seq<Hit>, sweep: Sweep, slot: Slot): nat {
    var table := Swept(After(history, sweep), sweep, slot.key, slot.windowStart);
    if slot in table then table[slot].count + 1 else 1
  }

  /** What the rows mean: hits on the slot since its last removal. */
  function HitsSinceRemoval(history: seq<Hit>, sweep: Sweep, slot: Slot): nat {
    if history == [] then 0
    else
      var front, last := history[..|history| - 1], history[|history| - 1];
      if Removes(last, slot, sweep) then 0
      else HitsSinceRemoval(front, sweep, slot) + (if IsOn(last, slot) then 1 else 0)
  }

  lemma {:induction false} RowsCountHitsSinceRemoval(history: seq<Hit>, sweep: Sweep, slot: Slot)
    ensures slot in After(history, sweep) <==> HitsSinceRemoval(history, sweep, slot) > 0
    ensures slot in After(history, sweep) ==>
              After(history, sweep)[slot] == Counter(HitsSinceRemoval(history, sweep, slot), slot.windowStart + WINDOW)
  {
    if history != [] {
      RowsCountHitsSinceRemoval(history[..|history| - 1], sweep, slot);
    }
  }

  /** Some hit on the slot was followed by a hit that removes it. */
  ghost predicate Forgotten(history: seq<Hit>, sweep: Sweep, slot: Slot) {
    exists i, j :: 0 <= i < j < |history| && IsOn(history[i], slot) && Removes(history[j], slot, sweep)
  }

  lemma {:induction false} HitsSinceRemovalIsHits(history: seq<Hit>, sweep: Sweep, slot: Slot)
    ensures HitsSinceRemoval(history, sweep, slot) <= Hits(history, slot)
    ensures HitsSinceRemoval(history, sweep, slot) == Hits(history, slot) <==> !Forgotten(history, sweep, slot)
  {
    if history != [] {
      var front, last := history[..|history| - 1], history[|history| - 1];
      HitsSinceRemovalIsHits(front, sweep, slot);
      SomeHit(front, slot);
      if Removes(last, slot, sweep) {
        if Hits(front, slot) > 0 {
          var i :| 0 <= i < |front| && IsOn(front[i], slot);
          assert IsOn(history[i], slot) && Removes(history[|front|], slot, sweep);
        } else {
          assert forall i :: 0 <= i < |front| ==> history[i] == front[i];
        }
      } else {
        ForgottenPrefix(history, sweep, slot);
      }
    }
  }

  lemma ForgottenPrefix(history: seq<Hit>, sweep: Sweep, slot: Slot)
    requires history != [] && !Removes(history[|history| - 1], slot, sweep)
    ensures Forgotten(history, sweep, slot) <==> Forgotten(history[..|history| - 1], sweep, slot)
  {
  }

  lemma {:induction false} SomeHit(history: seq<Hit>, slot: Slot)
    ensures Hits(history, slot) > 0 <==> exists i :: 0 <= i < |history| && IsOn(history[i], slot)
  {
    if history != [] {
      var front := history[..|history| - 1];
      SomeHit(front, slot);
      if Hits(front, slot) > 0 {
        var i :| 0 <= i < |front| && IsOn(front[i], slot);
        assert IsOn(history[i], slot);
      }
      if i :| 0 <= i < |history| && IsOn(history[i], slot) {
        assert i < |front| ==> IsOn(front[i], slot);
      }
    }
  }

  /**
   * The limiter agrees with the plain counter exactly when no earlier hit of the same window has
   * been forgotten by a hit that was already more than one window ahead.
   */
  lemma LimiterCountsExactlyUnlessForgotten(history: seq<Hit>, sweep: Sweep, slot: Slot)
    ensures NextCount(history, sweep, slot) == Hits(history, slot) + 1 <==> !Forgotten(history, sweep, slot)
    ensures NextCount(history, sweep, slot) <= Hits(history, slot) + 1
  {
    RowsCountHitsSinceRemoval(history, sweep, slot);
    HitsSinceRemovalIsHits(history, sweep, slot);
  }

  /** No committed hit is more than one window ahead: what a caller can check before consuming. */
  predicate Fresh(history: seq<Hit>, windowStart: int) {
    forall i :: 0 <= i < |history| ==> history[i].windowStart <= windowStart + WINDOW
  }

  /** Refinement: under that guard, a request is admitted exactly when it is among the first `limit` of its window. */
  lemma LimiterRefinesPlainCounter(history: seq<Hit>, sweep: Sweep, slot: Slot, limit: nat)
    requires Fresh(history, slot.windowStart)
    ensures NextCount(history, sweep, slot) == Hits(history, slot) + 1
    ensures NextCount(history, sweep, slot) <= limit <==> Hits(history, slot) < limit
  {
    LimiterCountsExactlyUnlessForgotten(history, sweep, slot);
  }

  /** One window of slack is all there is: a hit two windows ahead makes the next request of this window count as the first. */
  lemma TwoWindowsAheadForgets(history: seq<Hit>, sweep: Sweep, slot: Slot, ahead: Hit)
    requires Hits(history, slot) > 0 && Removes(ahead, slot, sweep)
    ensures NextCount(history + [ahead], sweep, slot) == 1 < Hits(history + [ahead], slot) + 1
  {
    var longer := history + [ahead];
    assert longer[..|longer| - 1] == history;
    RowsCountHitsSinceRemoval(longer, sweep, slot);
  }

  // ---------------------------------------------------------------- time bounds

  datatype Request = Request(key: Key, at: int)

  /** One clock that never goes back. */
  ghost predicate InOrder(requests: seq<Request>) {
    forall i, j :: 0 <= i <= j < |requests| ==> requests[i].at <= requests[j].at
  }

  /** Clocks of different processes: no earlier request is more than one window ahead of a later one. */
  ghost predicate AtMostOneAhead(requests: seq<Request>) {
    forall i, j :: 0 <= i <= j < |requests| ==> WindowOf(requests[i].at) <= WindowOf(requests[j].at) + WINDOW
  }

  function HistoryOf(requests: seq<Request>): (history: seq<Hit>)
    ensures |history| == |requests|
    ensures forall i :: 0 <= i < |requests| ==> history[i] == Hit(requests[i].key, WindowOf(requests[i].at))
  {
    seq(|requests|, i requires 0 <= i < |requests| => Hit(requests[i].key, WindowOf(requests[i].at)))
  }

  /** Whether the last request of a sequence is let through. */
  predicate LastAdmitted(requests: seq<Request>, sweep: Sweep, limit: nat)
    requires requests != []
  {
    var last := requests[|requests| - 1];
    NextCount(HistoryOf(requests[..|requests| - 1]), sweep, Slot(last.key, WindowOf(last.at))) <= limit
  }

  /** Requests of `key` admitted at a time in `from..to`. */
  function AdmittedBetween(requests: seq<Request>, sweep: Sweep, limit: nat, key: Key, from: int, to: int): nat {
    if requests == [] then 0
    else
      var last := requests[|requests| - 1];
      AdmittedBetween(requests[..|requests| - 1], sweep, limit, key, from, to)
      + (if last.key == key && from <= last.at <= to && LastAdmitted(requests, sweep, limit) then 1 else 0)
  }

  lemma WindowMembership(now: int, start: int)
    requires start % WINDOW == 0
    ensures WindowOf(now) == start <==> start <= now < start + WINDOW
  {
  }

  /** In one window exactly the first `limit` requests are admitted, also by clocks that differ by up to a window. */
  lemma {:induction false} WindowAdmitsTheFirst(requests: seq<Request>, sweep: Sweep, limit: nat, key: Key, start: int)
    requires AtMostOneAhead(requests) && start % WINDOW == 0
    ensures AdmittedBetween(requests, sweep, limit, key, start, start + WINDOW - 1) ==
            (if Hits(HistoryOf(requests), Slot(key, start)) <= limit then Hits(HistoryOf(requests), Slot(key, start)) else limit)
  {
    if requests != [] {
      var front, last := requests[..|requests| - 1], requests[|requests| - 1];
      WindowAdmitsTheFirst(front, sweep, limit, key, start);
      assert HistoryOf(requests)[..|requests| - 1] == HistoryOf(front);
      WindowMembership(last.at, start);
      if last.key == key && WindowOf(last.at) == start {
        forall i | 0 <= i < |front|
          ensures HistoryOf(front)[i].windowStart <= start + WINDOW
        {
          assert requests[i] == front[i];
        }
        LimiterRefinesPlainCounter(HistoryOf(front), sweep, Slot(key, start), limit);
      }
    }
  }

  lemma {:induction false} IntervalSpansTwoWindows(requests: seq<Request>, sweep: Sweep, limit: nat, key: Key, from: int)
    ensures var start := WindowOf(from);
            AdmittedBetween(requests, sweep, limit, key, from, from + WINDOW) <=
            AdmittedBetween(requests, sweep, limit, key, start, start + WINDOW - 1) +
            AdmittedBetween(requests, sweep, limit, key, start + WINDOW, start + WINDOW + WINDOW - 1)
  {
    WindowIsMinute(from);
    if requests != [] {
      IntervalSpansTwoWindows(requests[..|requests| - 1], sweep, limit, key, from);
    }
  }

  /** One window admits at most the limit. */
  lemma WindowAdmitsAtMostTheLimit(requests: seq<Request>, sweep: Sweep, limit: nat, key: Key, start: int)
    requires AtMostOneAhead(requests) && start % WINDOW == 0
    ensures AdmittedBetween(requests, sweep, limit, key, start, start + WINDOW - 1) <= limit
  {
    WindowAdmitsTheFirst(requests, sweep, limit, key, start);
  }

  lemma TwoWindowsAdmitAtMostTwiceTheLimit(requests: seq<Request>, sweep: Sweep, limit: nat, key: Key, start: int)
    requires AtMostOneAhead(requests) && start % WINDOW == 0
    ensures AdmittedBetween(requests, sweep, limit, key, start, start + WINDOW - 1)
            + AdmittedBetween(requests, sweep, limit, key, start + WINDOW, start + WINDOW + WINDOW - 1) <= 2 * limit
  {
    WindowAdmitsAtMostTheLimit(requests, sweep, limit, key, start);
    WindowAdmitsAtMostTheLimit(requests, sweep, limit, key, start + WINDOW);
  }

  /** Any interval of one window's length admits at most twice the limit. */
  lemma IntervalAdmitsAtMostTwiceTheLimit(requests: seq<Request>, sweep: Sweep, limit: nat, key: Key, from: int)
    requires AtMostOneAhead(requests)
    ensures AdmittedBetween(requests, sweep, limit, key, from, from + WINDOW) <= 2 * limit
  {
    WindowIsMinute(from);
    IntervalSpansTwoWindows(requests, sweep, limit, key, from);
    TwoWindowsAdmitAtMostTwiceTheLimit(requests, sweep, limit, key, WindowOf(from));
  }

  lemma WindowsAreOrdered(earlier: int, later: int)
    requires earlier <= later
    ensures WindowOf(earlier) <= WindowOf(later)
    ensures WindowOf(later) <= WindowOf(earlier) + WINDOW ==>
              WindowOf(earlier) == WindowOf(later) || WindowOf(earlier) == WindowOf(later) - WINDOW
  {
  }

  /** One clock that never goes back is never ahead. */
  lemma OrderedIsNeverAhead(requests: seq<Request>)
    requires InOrder(requests)
    ensures AtMostOneAhead(requests)
  {
    forall i, j | 0 <= i <= j < |requests|
      ensures WindowOf(requests[i].at) <= WindowOf(requests[j].at) + WINDOW
    {
      WindowsAreOrdered(requests[i].at, requests[j].at);
    }
  }

  /** A slot with a row was hit, and not removed by the last hit. */
  lemma RowsAreRecent(history: seq<Hit>, sweep: Sweep, slot: Slot)
    requires history != [] && slot in After(history, sweep)
    ensures exists i :: 0 <= i < |history| && IsOn(history[i], slot)
    ensures !Removes(history[|history| - 1], slot, sweep)
  {
    RowsCountHitsSinceRemoval(history, sweep, slot);
    HitsSinceRemovalIsHits(history, sweep, slot);
    SomeHit(history, slot);
  }

  /** After a request, at most the rows of its own and the previous window are left for its key. */
  lemma AtMostTwoRowsSurvive(requests: seq<Request>, sweep: Sweep, slot: Slot)
    requires requests != [] && InOrder(requests)
    requires slot in After(HistoryOf(requests), sweep) && slot.key == requests[|requests| - 1].key
    ensures var start := WindowOf(requests[|requests| - 1].at);
            slot.windowStart == start || slot.windowStart == start - WINDOW
  {
    var history := HistoryOf(requests);
    RowsAreRecent(history, sweep, slot);
    var i :| 0 <= i < |history| && IsOn(history[i], slot);
    WindowsAreOrdered(requests[i].at, requests[|requests| - 1].at);
  }

  /** At every moment and for every key, all rows of the key lie in two consecutive windows. */
  lemma {:induction false} RowsLieInTwoWindows(requests: seq<Request>, sweep: Sweep, key: Key) returns (start: int)
    requires InOrder(requests)
    ensures forall slot :: slot in After(HistoryOf(requests), sweep) && slot.key == key ==>
              slot.windowStart == start || slot.windowStart == start - WINDOW
  {
    start := 0;
    if requests != [] {
      var front, last := requests[..|requests| - 1], requests[|requests| - 1];
      if last.key == key {
        start := WindowOf(last.at);
        forall slot | slot in After(HistoryOf(requests), sweep) && slot.key == key
          ensures slot.windowStart == start || slot.windowStart == start - WINDOW
        {
          AtMostTwoRowsSurvive(requests, sweep, slot);
        }
      } else {
        start := RowsLieInTwoWindows(front, sweep, key);
        assert HistoryOf(requests)[..|requests| - 1] == HistoryOf(front);
      }
    }
  }

  // ---------------------------------------------------------------- replies

  /** `Math.ceil(ms / 1000)`. */
  function CeilSeconds(ms: int): int {
    (ms + 999) / 1000
  }

  function Max(a: int, b: int): int {
    if a >= b then a else b
  }

  /** The `Retry-After` value in seconds (section 10.2.3 of RFC 9110). */
  function RetryAfter(resetAt: int, now: int): int {
    Max(1, CeilSeconds(resetAt - now))
  }

  /** Waiting that long reaches the next window, with less than a second to spare. */
  lemma RetryAfterReachesNextWindow(now: int)
    ensures var reset := WindowOf(now) + WINDOW;
            && reset <= now + 1000 * RetryAfter(reset, now) < reset + 1000
            && WindowOf(now + 1000 * RetryAfter(reset, now)) == reset
  {
  }

  datatype Headers = Headers(limit: nat, remaining: int, resetSeconds: int)

  datatype Reply =
    | Next(counted: Option<Headers>)
    | TooManyRequests(headers: Headers, retryAfter: int)
    | StoreUnavailable

  /**
   * A table shared by all processes; `consume` is one atomic transaction, or fails without effect. `failures` counts the
   * transactions that failed.
   */
  class WindowStore {
    const sweep: Sweep
    var rows: Table
    ghost var failures: nat

    constructor (sweep: Sweep)
      ensures rows == map[] && failures == 0 && this.sweep == sweep
    {
      this.sweep := sweep;
      rows := map[];
      failures := 0;
    }

    method Consume(key: Key, windowStart: int, expiresAt: int) returns (counter: Option<Counter>)
      modifies this
      ensures failures == if counter.None? then old(failures) + 1 else old(failures)
      ensures counter.None? ==> rows == old(rows)
      ensures counter.Some? ==>
                && rows == Consumed(old(rows), sweep, key, windowStart, expiresAt)
                && counter.value == rows[Slot(key, windowStart)]
    {
      if * {
        failures := failures + 1;
        return None;
      }
      var slot := Slot(key, windowStart);
      rows := map s | s in rows && !(Reaches(sweep, s.key, key) && rows[s].expiresAt < windowStart) :: rows[s];
      if slot in rows {
        rows := rows[slot := rows[slot].(count := rows[slot].count + 1)];
      } else {
        rows := rows[slot := Counter(1, expiresAt)];
      }
      return Some(rows[slot]);
    }
  }

  /** The part of a request the limiter reads and writes. */
  class LimitedRequest {
    var businessId: string
    var tier: Option<Tier>
    var scopes: set<string>

    constructor (businessId: string, tier: Option<Tier>)
      ensures this.businessId == businessId && this.tier == tier && scopes == {}
    {
      this.businessId, this.tier, scopes := businessId, tier, {};
    }
  }

  function TierLimit(tier: Tier): nat {
    match tier
    case Standard => 300
    case Premium => 1000
    case Enterprise => 5000
  }

  /** What a counted request is answered, from its count. */
  function ReplyFor(counter: Counter, limit: nat, now: int): Reply {
    var headers := Headers(limit, Max(0, limit - counter.count), CeilSeconds(counter.expiresAt));
    if counter.count > limit then TooManyRequests(headers, RetryAfter(counter.expiresAt, now)) else Next(Some(headers))
  }

  /** The requests per minute each tier is promised. */
  lemma TierLimits(tier: Tier)
    ensures TierLimit(tier) == if tier == Standard then 300 else if tier == Premium then 1000 else 5000
  {
  }

  /** `durableTierRateLimit`. An override of zero falls back to the tier's limit. */
  method TierRateLimit(store: WindowStore, request: LimitedRequest, scope: string, limitOverride: nat, now: int) returns (reply: Reply)
    modifies store, request`scopes
    ensures reply == StoreUnavailable <==> old(store.failures) < store.failures
    ensures request.businessId == "" || request.tier.None? || scope in old(request.scopes) ==>
              reply == Next(None) && store.rows == old(store.rows) && request.scopes == old(request.scopes)
    ensures request.businessId != "" && request.tier.Some? && scope !in old(request.scopes) ==>
              var limit := if limitOverride != 0 then limitOverride
                           else if request.tier.value.Standard? then 300 else if request.tier.value.Premium? then 1000 else 5000;
              var key, start := Key(request.businessId, scope), WindowOf(now);
              if reply.StoreUnavailable? then store.rows == old(store.rows) && request.scopes == old(request.scopes)
              else
                && store.rows == Consumed(old(store.rows), store.sweep, key, start, start + WINDOW)
                && reply == ReplyFor(store.rows[Slot(key, start)], limit, now)
                && request.scopes == (if reply.Next? then old(request.scopes) + {scope} else old(request.scopes))
  {
    if request.businessId == "" || request.tier.None? { return Next(None); }
    if scope in request.scopes { return Next(None); }
    var limit := if limitOverride != 0 then limitOverride else TierLimit(request.tier.value);
    var windowStart := WindowOf(now);
    var consumption := store.Consume(Key(request.businessId, scope), windowStart, windowStart + WINDOW);
    if consumption.None? { return StoreUnavailable; }
    var headers := Headers(limit, Max(0, limit - consumption.value.count), CeilSeconds(consumption.value.expiresAt));
    if consumption.value.count > limit {
      return TooManyRequests(headers, RetryAfter(consumption.value.expiresAt, now));
    }
    request.scopes := request.scopes + {scope};
    return Next(Some(headers));
  }

  /** A request that passed a scope once is not counted again by a second limiter of that scope. */
  method CountedOncePerScope(store: WindowStore, request: LimitedRequest, scope: string, limitOverride: nat, now: int, later: int)
    returns (first: Reply, second: Reply)
    modifies store, request`scopes
    ensures first.Next? ==> second == Next(None)
    ensures first.Next? && request.businessId != "" && request.tier.Some? && scope !in old(request.scopes) ==>
              store.rows == Consumed(old(store.rows), store.sweep, Key(request.businessId, scope), WindowOf(now), WindowOf(now) + WINDOW)
  {
    first := TierRateLimit(store, request, scope, limitOverride, now);
    second := TierRateLimit(store, request, scope, limitOverride, later);
  }

  /** `durablePublicRateLimit`; the key arrives already trimmed, lower-cased and hashed. */
  method PublicRateLimit(store: WindowStore, keyHash: string, scope: string, limit: nat, now: int) returns (reply: Reply)
    modifies store
    ensures reply == StoreUnavailable <==> old(store.failures) < store.failures
    ensures reply.StoreUnavailable? ==> store.rows == old(store.rows)
    ensures !reply.StoreUnavailable? ==>
              var key, start := Key(keyHash, scope), WindowOf(now);
              && store.rows == Consumed(old(store.rows), store.sweep, key, start, start + WINDOW)
              && reply == ReplyFor(store.rows[Slot(key, start)], limit, now)
  {
    var windowStart := WindowOf(now);
    var consumption := store.Consume(Key(keyHash, scope), windowStart, windowStart + WINDOW);
    if consumption.None? { return StoreUnavailable; }
    var headers := Headers(limit, Max(0, limit - consumption.value.count), CeilSeconds(consumption.value.expiresAt));
    if consumption.value.count > limit {
      return TooManyRequests(headers, RetryAfter(consumption.value.expiresAt, now));
    }
    return Next(Some(headers));
  }

  /** The replies over a whole history: admitted exactly when among the first `limit` of the window. */
  lemma ReplyFollowsHistory(history: seq<Hit>, sweep: Sweep, key: Key, now: int, limit: nat)
    requires Fresh(history, WindowOf(now))
    ensures var slot := Slot(key, WindowOf(now));
            var rows := Consumed(After(history, sweep), sweep, key, WindowOf(now), WindowOf(now) + WINDOW);
            && rows == After(history + [Hit(key, WindowOf(now))], sweep)
            && rows[slot] == Counter(Hits(history, slot) + 1, WindowOf(now) + WINDOW)
            && (ReplyFor(rows[slot], limit, now).Next? <==> Hits(history, slot) < limit)
            && (ReplyFor(rows[slot], limit, now).TooManyRequests? <==> Hits(history, slot) >= limit)
  {
    var slot := Slot(key, WindowOf(now));
    var longer := history + [Hit(key, WindowOf(now))];
    assert longer[..|longer| - 1] == history;
    LimiterRefinesPlainCounter(history, sweep, slot, limit);
    RowsCountHitsSinceRemoval(history, sweep, slot);
  }
}
