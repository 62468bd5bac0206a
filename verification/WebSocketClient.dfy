/**
 * The reconnecting WebSocket client (src/hooks/useWebSocket.ts).
 *
 * Events arrive in any order: mounting and unmounting (a URL change is an unmount followed by a
 * mount), socket events of the current or of abandoned sockets, timers that were set earlier,
 * subscriptions, and manual disconnects and reconnects.
 */
module WebSocketClient {
  import opened Wrappers

  const RECONNECT_DELAY_MS: nat := 3000
  const MAX_RECONNECT_ATTEMPTS: nat := 10
  const SYSTEM: string := "system"

  datatype ReadyState = Connecting | Open | Closing | Closed

  /** A socket and the channels its frames have told the server to carry, net of unsubscribe frames. */
  datatype Socket = Socket(ready: ReadyState, carried: set<string>)

  datatype ConnectionState = IsConnecting | IsConnected | IsDisconnected | IsReconnecting

  /**
   * `current` is `wsRef`, `timer` is `reconnectTimerRef`; `pending` holds every timer that is neither
   * fired nor cleared, also those whose reference was overwritten. `delays` lists the reconnect
   * delays that close handlers have scheduled since the attempt counter was last reset.
   */
  datatype State = State(
    sockets: seq<Socket>, current: Option<nat>, mounted: bool, manual: bool, attempts: nat,
    timer: Option<nat>, pending: set<nat>, timersMade: nat, heartbeat: bool,
    subscriptions: map<string, set<nat>>, connection: ConnectionState, delays: seq<nat>)

  const INITIAL: State := State([], None, false, false, 0, None, {}, 0, false, map[], IsDisconnected, [])

  datatype Event =
    | Mount(constructorThrows: bool)
    | Unmount
    | SocketOpens(socket: nat)
    | SocketStartsClosing(socket: nat)
    | SocketCloses(socket: nat)
    | TimerFires(timer: nat, constructorThrows: bool)
    | Subscribe(channel: string, callback: nat)
    | Unsubscribe(channel: string, callback: nat)
    | Disconnect
    | Reconnect

  predicate Live(socket: Socket) {
    socket.ready.Connecting? || socket.ready.Open?
  }

  predicate CurrentIs(s: State, ready: ReadyState) {
    s.current.Some? && s.current.value < |s.sockets| && s.sockets[s.current.value].ready == ready
  }

  /** `close()` on a socket that is still connecting or open starts its closing handshake. */
  function Shut(sockets: seq<Socket>, id: Option<nat>): seq<Socket> {
    if id.Some? && id.value < |sockets| && Live(sockets[id.value]) then
      sockets[id.value := sockets[id.value].(ready := Closing)]
    else sockets
  }

  function ClearTimer(s: State): State {
    if s.timer.Some? then s.(pending := s.pending - {s.timer.value}, timer := None) else s
  }

  function SetTimer(s: State): State {
    s.(timer := Some(s.timersMade), pending := s.pending + {s.timersMade}, timersMade := s.timersMade + 1)
  }

  function Connect(s: State, constructorThrows: bool): State {
    if !s.mounted || CurrentIs(s, Open) || CurrentIs(s, Connecting) then s
    else
      var cleared := ClearTimer(s).(manual := false);
      if constructorThrows then cleared.(connection := IsDisconnected)
      else
        cleared.(connection := if s.attempts > 0 then IsReconnecting else IsConnecting,
                 sockets := s.sockets + [Socket(Connecting, {})],
                 current := Some(|s.sockets|))
  }

  function Detach(s: State): State {
    ClearTimer(s).(manual := true, heartbeat := false, current := None, sockets := Shut(s.sockets, s.current))
  }

  function Disconnected(s: State): State {
    Detach(s).(attempts := 0, delays := [], connection := IsDisconnected)
  }

  /** A frame on the current socket, if that is open. */
  function Send(s: State, subscribe: set<string>, unsubscribe: set<string>): State {
    if CurrentIs(s, Open) then
      var id := s.current.value;
      s.(sockets := s.sockets[id := Socket(Open, s.sockets[id].carried + subscribe - unsubscribe)])
    else s
  }

  function Opened(s: State, id: nat): State
    requires id < |s.sockets|
  {
    var open := s.(sockets := s.sockets[id := s.sockets[id].(ready := Open)]);
    if !s.mounted || s.current != Some(id) then open.(sockets := Shut(open.sockets, Some(id)))
    else
      Send(open.(attempts := 0, delays := [], connection := IsConnected, heartbeat := true), s.subscriptions.Keys, {})
  }

  function ReconnectDelay(attempt: nat): nat {
    RECONNECT_DELAY_MS * (if attempt <= 5 then attempt else 5)
  }

  function ClosedEvent(s: State, id: nat): State
    requires id < |s.sockets|
  {
    var closed :=
      s.(sockets := s.sockets[id := s.sockets[id].(ready := Closed)],
         current := if s.current == Some(id) then None else s.current,
         heartbeat := false);
    if !s.mounted || s.manual then closed.(connection := IsDisconnected)
    else
      var counted := closed.(attempts := s.attempts + 1);
      if s.attempts + 1 > MAX_RECONNECT_ATTEMPTS then counted.(connection := IsDisconnected)
      else SetTimer(counted.(connection := IsReconnecting, delays := s.delays + [ReconnectDelay(s.attempts + 1)]))
  }

  function Subscribed(s: State, channel: string, callback: nat): State {
    var isNew := channel !in s.subscriptions;
    var callbacks := (if isNew then {} else s.subscriptions[channel]) + {callback};
    var added := s.(subscriptions := s.subscriptions[channel := callbacks]);
    if isNew then Send(added, {channel}, {}) else added
  }

  function Unsubscribed(s: State, channel: string, callback: nat): State {
    if channel !in s.subscriptions then s
    else
      var callbacks := s.subscriptions[channel] - {callback};
      if callbacks != {} then s.(subscriptions := s.subscriptions[channel := callbacks])
      else
        var removed := s.(subscriptions := s.subscriptions - {channel});
        if channel != SYSTEM then Send(removed, {}, {channel}) else removed
  }

  /** One event; what cannot happen in a state leaves it as it is. */
  function Step(s: State, e: Event): State {
    match e
    case Mount(throws) => Connect(s.(mounted := true), throws)
    case Unmount => Detach(s.(mounted := false))
    case SocketOpens(id) => if id < |s.sockets| && s.sockets[id].ready.Connecting? then Opened(s, id) else s
    case SocketStartsClosing(id) => s.(sockets := Shut(s.sockets, Some(id)))
    case SocketCloses(id) => if id < |s.sockets| && !s.sockets[id].ready.Closed? then ClosedEvent(s, id) else s
    case TimerFires(timer, throws) => if timer in s.pending then Connect(s.(pending := s.pending - {timer}), throws) else s
    case Subscribe(channel, callback) => Subscribed(s, channel, callback)
    case Unsubscribe(channel, callback) => Unsubscribed(s, channel, callback)
    case Disconnect => Disconnected(s)
    case Reconnect => SetTimer(Disconnected(s).(manual := false))
  }

  function Run(s: State, events: seq<Event>): State
    decreases |events|
  {
    if events == [] then s else Run(Step(s, events[0]), events[1..])
  }

  // ---------------------------------------------------------------- invariants of every run

  /** Every connecting or open socket is the current one, and there is none while unmounted. */
  ghost predicate OneLiveSocket(s: State) {
    && (s.current.Some? ==> s.current.value < |s.sockets| && s.mounted)
    && (forall id :: 0 <= id < |s.sockets| && Live(s.sockets[id]) ==> s.current == Some(id))
  }

  /** The open current socket carries the subscribed channels, apart from the unconditional system channel. */
  ghost predicate SubscriptionsAgree(s: State) {
    && (CurrentIs(s, Open) ==> s.sockets[s.current.value].carried - {SYSTEM} == s.subscriptions.Keys - {SYSTEM})
    && (forall id :: 0 <= id < |s.sockets| && s.sockets[id].ready.Connecting? ==> s.sockets[id].carried == {})
    && (forall channel :: channel in s.subscriptions ==> s.subscriptions[channel] != {})
  }

  function Schedule(attempts: nat): seq<nat> {
    if attempts == 0 then [] else Schedule(attempts - 1) + [ReconnectDelay(attempts)]
  }

  ghost predicate DelaysFollowSchedule(s: State) {
    s.delays == Schedule(if s.attempts <= MAX_RECONNECT_ATTEMPTS then s.attempts else MAX_RECONNECT_ATTEMPTS)
  }

  ghost predicate Invariant(s: State) {
    OneLiveSocket(s) && SubscriptionsAgree(s) && DelaysFollowSchedule(s)
  }

  lemma ConnectKeepsSockets(s: State, throws: bool)
    requires OneLiveSocket(s)
    ensures OneLiveSocket(Connect(s, throws))
  {
  }

  lemma ConnectKeeps(s: State, throws: bool)
    requires OneLiveSocket(s) && SubscriptionsAgree(s)
    ensures OneLiveSocket(Connect(s, throws)) && SubscriptionsAgree(Connect(s, throws))
    ensures DelaysFollowSchedule(s) ==> DelaysFollowSchedule(Connect(s, throws))
  {
    ConnectKeepsSockets(s, throws);
  }

  lemma DetachKeeps(s: State)
    requires SubscriptionsAgree(s)
    requires forall id :: 0 <= id < |s.sockets| && Live(s.sockets[id]) ==> s.current == Some(id)
    ensures OneLiveSocket(Detach(s)) && SubscriptionsAgree(Detach(s)) && Detach(s).current.None?
    ensures forall id :: 0 <= id < |s.sockets| ==> !Live(Detach(s).sockets[id])
  {
  }

  lemma DisconnectedKeeps(s: State)
    requires OneLiveSocket(s) && SubscriptionsAgree(s)
    ensures Invariant(Disconnected(s)) && Invariant(SetTimer(Disconnected(s).(manual := false)))
  {
    DetachKeeps(s);
    assert Schedule(0) == [];
  }

  lemma UnmountKeeps(s: State)
    requires Invariant(s)
    ensures Invariant(Detach(s.(mounted := false)))
  {
    DetachKeeps(s.(mounted := false));
  }

  lemma ClosingKeeps(s: State, id: nat)
    requires Invariant(s)
    ensures Invariant(s.(sockets := Shut(s.sockets, Some(id))))
  {
  }

  lemma OpenedKeeps(s: State, id: nat)
    requires OneLiveSocket(s) && SubscriptionsAgree(s) && id < |s.sockets| && s.sockets[id].ready.Connecting?
    ensures OneLiveSocket(Opened(s, id)) && SubscriptionsAgree(Opened(s, id)) && DelaysFollowSchedule(Opened(s, id))
  {
    assert Live(s.sockets[id]) && s.current == Some(id);
    assert Opened(s, id).sockets[id] == Socket(Open, s.subscriptions.Keys);
    assert Schedule(0) == [];
  }

  lemma ClosedKeeps(s: State, id: nat)
    requires OneLiveSocket(s) && SubscriptionsAgree(s) && id < |s.sockets|
    ensures OneLiveSocket(ClosedEvent(s, id)) && SubscriptionsAgree(ClosedEvent(s, id))
    ensures DelaysFollowSchedule(s) ==> DelaysFollowSchedule(ClosedEvent(s, id))
  {
  }

  /** Adding or removing one channel on both sides keeps two sets equal apart from the system channel. */
  lemma AgreementShifts(a: set<string>, b: set<string>, channel: string)
    requires a - {SYSTEM} == b - {SYSTEM}
    ensures a + {channel} - {} - {SYSTEM} == b + {channel} - {SYSTEM}
    ensures a + {} - {channel} - {SYSTEM} == b - {channel} - {SYSTEM}
    ensures a - {SYSTEM} == b - {SYSTEM} - {SYSTEM}
  {
    assert forall c :: c != SYSTEM ==> (c in a <==> c in a - {SYSTEM}) && (c in b <==> c in b - {SYSTEM});
  }

  lemma SubscribedKeeps(s: State, channel: string, callback: nat)
    requires OneLiveSocket(s) && SubscriptionsAgree(s)
    ensures OneLiveSocket(Subscribed(s, channel, callback)) && SubscriptionsAgree(Subscribed(s, channel, callback))
  {
    var t := Subscribed(s, channel, callback);
    assert t.subscriptions.Keys == s.subscriptions.Keys + {channel};
    if CurrentIs(s, Open) {
      AgreementShifts(s.sockets[s.current.value].carried, s.subscriptions.Keys, channel);
      assert channel in s.subscriptions ==> t.subscriptions.Keys == s.subscriptions.Keys;
    }
  }

  lemma UnsubscribedKeeps(s: State, channel: string, callback: nat)
    requires OneLiveSocket(s) && SubscriptionsAgree(s)
    ensures OneLiveSocket(Unsubscribed(s, channel, callback)) && SubscriptionsAgree(Unsubscribed(s, channel, callback))
  {
    var t := Unsubscribed(s, channel, callback);
    if channel in s.subscriptions && s.subscriptions[channel] - {callback} == {} {
      assert t.subscriptions.Keys == s.subscriptions.Keys - {channel};
    } else {
      assert t.subscriptions.Keys == s.subscriptions.Keys;
    }
    if CurrentIs(s, Open) {
      AgreementShifts(s.sockets[s.current.value].carried, s.subscriptions.Keys, channel);
    }
  }

  lemma SubscribeStepKeeps(s: State, channel: string, callback: nat)
    requires Invariant(s)
    ensures Invariant(Subscribed(s, channel, callback))
  {
    SubscribedKeeps(s, channel, callback);
  }

  lemma UnsubscribeStepKeeps(s: State, channel: string, callback: nat)
    requires Invariant(s)
    ensures Invariant(Unsubscribed(s, channel, callback))
  {
    UnsubscribedKeeps(s, channel, callback);
  }

  lemma SocketStepKeeps(s: State, e: Event)
    requires Invariant(s) && (e.SocketOpens? || e.SocketStartsClosing? || e.SocketCloses?)
    ensures Invariant(Step(s, e))
  {
    match e
    case SocketOpens(id) => if id < |s.sockets| && s.sockets[id].ready.Connecting? { OpenedKeeps(s, id); }
    case SocketStartsClosing(id) => ClosingKeeps(s, id);
    case SocketCloses(id) => if id < |s.sockets| { ClosedKeeps(s, id); }
  }

  lemma ConnectStepKeeps(s: State, timer: nat, throws: bool)
    requires Invariant(s)
    ensures Invariant(Connect(s.(mounted := true), throws)) && Invariant(Connect(s.(pending := s.pending - {timer}), throws))
  {
    ConnectKeeps(s.(mounted := true), throws);
    ConnectKeeps(s.(pending := s.pending - {timer}), throws);
  }

  lemma StepKeepsInvariant(s: State, e: Event)
    requires Invariant(s)
    ensures Invariant(Step(s, e))
  {
    match e
    case Mount(throws) => ConnectStepKeeps(s, 0, throws);
    case Unmount => UnmountKeeps(s);
    case TimerFires(timer, throws) => ConnectStepKeeps(s, timer, throws);
    case Subscribe(channel, callback) => SubscribeStepKeeps(s, channel, callback);
    case Unsubscribe(channel, callback) => UnsubscribeStepKeeps(s, channel, callback);
    case Disconnect => DisconnectedKeeps(s);
    case Reconnect => DisconnectedKeeps(s);
    case _ => SocketStepKeeps(s, e);
  }

  lemma {:induction false} RunKeepsInvariant(s: State, events: seq<Event>)
    requires Invariant(s)
    ensures Invariant(Run(s, events))
    decreases |events|
  {
    if events != [] {
      StepKeepsInvariant(s, events[0]);
      RunKeepsInvariant(Step(s, events[0]), events[1..]);
    }
  }

  lemma InitialInvariant()
    ensures Invariant(INITIAL)
  {
  }

  /** In every run at most one socket is connecting or open, it is the current one, and none is after unmounting. */
  lemma AtMostOneLiveSocket(events: seq<Event>)
    ensures var s := Run(INITIAL, events);
            && (forall i, j :: 0 <= i < |s.sockets| && 0 <= j < |s.sockets| && Live(s.sockets[i]) && Live(s.sockets[j]) ==> i == j)
            && (forall i :: 0 <= i < |s.sockets| && Live(s.sockets[i]) ==> s.current == Some(i) && s.mounted)
  {
    InitialInvariant();
    RunKeepsInvariant(INITIAL, events);
  }

  /** In every run the open socket carries exactly the subscribed channels, "system" aside, and no channel is kept without callbacks. */
  lemma OpenSocketCarriesSubscriptions(events: seq<Event>, channel: string)
    requires channel != "system"
    ensures var s := Run(INITIAL, events);
            && (CurrentIs(s, Open) ==> (channel in s.sockets[s.current.value].carried <==> channel in s.subscriptions))
            && (channel in s.subscriptions ==> s.subscriptions[channel] != {})
  {
    InitialInvariant();
    RunKeepsInvariant(INITIAL, events);
    var s := Run(INITIAL, events);
    if CurrentIs(s, Open) {
      var carried := s.sockets[s.current.value].carried;
      assert channel in carried <==> channel in carried - {SYSTEM};
      assert channel in s.subscriptions.Keys <==> channel in s.subscriptions.Keys - {SYSTEM};
    }
  }

  // ---------------------------------------------------------------- callbacks

  /** The callback is in its channel's set. */
  predicate Listens(s: State, channel: string, callback: nat) {
    channel in s.subscriptions && callback in s.subscriptions[channel]
  }

  /** Its last subscribe is later than its last unsubscribe. */
  ghost predicate LastSubscribed(events: seq<Event>, channel: string, callback: nat) {
    exists i :: 0 <= i < |events| && events[i] == Subscribe(channel, callback) && NotUnsubscribed(events[i + 1..], channel, callback)
  }

  ghost predicate NotUnsubscribed(events: seq<Event>, channel: string, callback: nat) {
    forall i :: 0 <= i < |events| ==> events[i] != Unsubscribe(channel, callback)
  }

  lemma ConnectKeepsSubscriptions(s: State, throws: bool)
    ensures Connect(s, throws).subscriptions == s.subscriptions
  {
  }

  lemma SocketsKeepSubscriptions(s: State, id: nat)
    requires id < |s.sockets|
    ensures Opened(s, id).subscriptions == s.subscriptions && ClosedEvent(s, id).subscriptions == s.subscriptions
  {
  }

  lemma OthersKeepSubscriptions(s: State, e: Event)
    requires !e.Subscribe? && !e.Unsubscribe?
    ensures Step(s, e).subscriptions == s.subscriptions
  {
    match e
    case Mount(throws) => ConnectKeepsSubscriptions(s.(mounted := true), throws);
    case TimerFires(timer, throws) => ConnectKeepsSubscriptions(s.(pending := s.pending - {timer}), throws);
    case SocketOpens(id) =>
      if id < |s.sockets| {
        SocketsKeepSubscriptions(s, id);
      }
    case SocketCloses(id) =>
      if id < |s.sockets| {
        SocketsKeepSubscriptions(s, id);
      }
    case _ =>
  }

  lemma SubscribedListens(s: State, c: string, added: nat, channel: string, callback: nat)
    ensures Listens(Subscribed(s, c, added), channel, callback) <==>
              (c == channel && added == callback) || Listens(s, channel, callback)
  {
    var callbacks := (if c in s.subscriptions then s.subscriptions[c] else {}) + {added};
    assert Subscribed(s, c, added).subscriptions == s.subscriptions[c := callbacks];
  }

  lemma UnsubscribedListens(s: State, c: string, removed: nat, channel: string, callback: nat)
    ensures Listens(Unsubscribed(s, c, removed), channel, callback) <==>
              Listens(s, channel, callback) && !(c == channel && removed == callback)
  {
    if c in s.subscriptions {
      var callbacks := s.subscriptions[c] - {removed};
      assert Unsubscribed(s, c, removed).subscriptions
          == if callbacks != {} then s.subscriptions[c := callbacks] else s.subscriptions - {c};
    }
  }

  lemma StepListens(s: State, e: Event, channel: string, callback: nat)
    ensures Listens(Step(s, e), channel, callback) <==>
              e == Subscribe(channel, callback) || (Listens(s, channel, callback) && e != Unsubscribe(channel, callback))
  {
    match e
    case Subscribe(c, added) => SubscribedListens(s, c, added, channel, callback);
    case Unsubscribe(c, removed) => UnsubscribedListens(s, c, removed, channel, callback);
    case _ => OthersKeepSubscriptions(s, e);
  }

  lemma FirstEvent(events: seq<Event>, channel: string, callback: nat)
    requires events != []
    ensures NotUnsubscribed(events, channel, callback) <==>
              events[0] != Unsubscribe(channel, callback) && NotUnsubscribed(events[1..], channel, callback)
    ensures LastSubscribed(events, channel, callback) <==>
              || LastSubscribed(events[1..], channel, callback)
              || (events[0] == Subscribe(channel, callback) && NotUnsubscribed(events[1..], channel, callback))
  {
    var rest := events[1..];
    if NotUnsubscribed(rest, channel, callback) {
      forall i | 1 <= i < |events|
        ensures events[i] != Unsubscribe(channel, callback)
      {
        assert events[i] == rest[i - 1];
      }
    }
    if i :| 0 <= i < |rest| && rest[i] == Subscribe(channel, callback) && NotUnsubscribed(rest[i + 1..], channel, callback) {
      assert events[i + 1] == rest[i] && events[i + 2..] == rest[i + 1..];
    }
    if i :| 0 <= i < |events| && events[i] == Subscribe(channel, callback) && NotUnsubscribed(events[i + 1..], channel, callback) {
      if i > 0 {
        assert rest[i - 1] == events[i] && rest[i..] == events[i + 1..];
      }
    }
  }

  lemma {:induction false} RunListens(s: State, events: seq<Event>, channel: string, callback: nat)
    ensures Listens(Run(s, events), channel, callback) <==>
              || LastSubscribed(events, channel, callback)
              || (Listens(s, channel, callback) && NotUnsubscribed(events, channel, callback))
    decreases |events|
  {
    if events != [] {
      StepListens(s, events[0], channel, callback);
      RunListens(Step(s, events[0]), events[1..], channel, callback);
      FirstEvent(events, channel, callback);
    }
  }

  /** Over every run a callback is in its channel's set exactly when its last subscribe is later than its last unsubscribe. */
  lemma CallbacksFollowEvents(events: seq<Event>, channel: string, callback: nat)
    ensures Listens(Run(INITIAL, events), channel, callback) <==> LastSubscribed(events, channel, callback)
  {
    RunListens(INITIAL, events, channel, callback);
  }

  // ---------------------------------------------------------------- reconnects

  function Sum(delays: seq<nat>): nat {
    if delays == [] then 0 else Sum(delays[..|delays| - 1]) + delays[|delays| - 1]
  }

  lemma {:induction false} ScheduleIsBounded(attempts: nat)
    ensures |Schedule(attempts)| == attempts
    ensures Sum(Schedule(attempts)) <= 15000 * attempts
    ensures attempts >= 5 ==> Sum(Schedule(attempts)) == 15000 * attempts - 30000
  {
    if attempts > 0 {
      ScheduleIsBounded(attempts - 1);
      assert Schedule(attempts)[..attempts - 1] == Schedule(attempts - 1);
      if attempts == 5 {
        FirstFourDelays();
      }
    }
  }

  lemma FirstFourDelays()
    ensures Sum(Schedule(4)) == 30000
  {
    assert Schedule(1) == [3000] && Schedule(2) == [3000, 6000];
    assert Schedule(3) == [3000, 6000, 9000] && Schedule(4) == [3000, 6000, 9000, 12000];
    assert Sum([3000]) == 3000 && Sum([3000, 6000]) == 9000;
    assert Schedule(3)[..2] == Schedule(2) && Schedule(4)[..3] == Schedule(3);
  }

  /** Since the last reset the close handlers have scheduled at most ten reconnects, two minutes in all, in every run. */
  lemma ReconnectsAreBounded(events: seq<Event>)
    ensures var s := Run(INITIAL, events);
            |s.delays| <= 10 && Sum(s.delays) <= 120000
  {
    InitialInvariant();
    RunKeepsInvariant(INITIAL, events);
    var s := Run(INITIAL, events);
    var scheduled: nat := if s.attempts <= MAX_RECONNECT_ATTEMPTS then s.attempts else MAX_RECONNECT_ATTEMPTS;
    ScheduleIsBounded(scheduled);
    assert s.delays == Schedule(scheduled);
  }

  /** Attempts a close handler may still schedule before the next reset. */
  function Budget(s: State): nat {
    if s.attempts <= MAX_RECONNECT_ATTEMPTS then MAX_RECONNECT_ATTEMPTS - s.attempts else 0
  }

  /** Every automatic reconnect spends one unit of the budget, and only an open or a manual disconnect refills it. */
  lemma SchedulingSpendsBudget(s: State, e: Event)
    ensures |Step(s, e).delays| > |s.delays| ==> e.SocketCloses? && Budget(Step(s, e)) == Budget(s) - 1
    ensures Budget(Step(s, e)) > Budget(s) ==> e.SocketOpens? || e.Disconnect? || e.Reconnect?
  {
    match e
    case Mount(throws) => ConnectKeepsCounters(s.(mounted := true), throws);
    case TimerFires(timer, throws) => ConnectKeepsCounters(s.(pending := s.pending - {timer}), throws);
    case Subscribe(channel, callback) => SubscriptionsKeepCounters(s, channel, callback);
    case Unsubscribe(channel, callback) => SubscriptionsKeepCounters(s, channel, callback);
    case _ =>
  }

  /** The close event of a socket that is not closed yet, while reconnects are wanted and some of the ten are left. */
  predicate WantsReconnect(s: State, e: Event) {
    && e.SocketCloses? && e.socket < |s.sockets| && !s.sockets[e.socket].ready.Closed?
    && s.mounted && !s.manual && s.attempts < 10
  }

  /** A reconnect is scheduled exactly then, and its timer is the referenced one, pending from now on. */
  lemma SchedulesExactly(s: State, e: Event)
    ensures |Step(s, e).delays| > |s.delays| <==> WantsReconnect(s, e)
    ensures WantsReconnect(s, e) ==>
              && Step(s, e).timer == Some(s.timersMade) && Step(s, e).pending == s.pending + {s.timersMade}
              && Step(s, e).delays == s.delays + [3000 * if s.attempts < 5 then s.attempts + 1 else 5]
              && Step(s, e).connection.IsReconnecting?
  {
    match e
    case Mount(throws) => ConnectKeepsCounters(s.(mounted := true), throws);
    case TimerFires(timer, throws) => ConnectKeepsCounters(s.(pending := s.pending - {timer}), throws);
    case Subscribe(channel, callback) => SubscriptionsKeepCounters(s, channel, callback);
    case Unsubscribe(channel, callback) => SubscriptionsKeepCounters(s, channel, callback);
    case _ =>
  }

  /** Mounting, and a pending timer while mounted, lead to a connecting or open socket, unless the constructor throws. */
  lemma ConnectingConnects(s: State, e: Event)
    requires OneLiveSocket(s)
    requires e == Mount(false) || (s.mounted && e.TimerFires? && e.timer in s.pending && !e.constructorThrows)
    ensures CurrentIs(Step(s, e), Connecting) || CurrentIs(Step(s, e), Open)
  {
  }

  /** Nothing is live and no reconnect is wanted. */
  predicate IsDown(s: State) {
    && s.manual && s.current.None? && s.connection.IsDisconnected?
    && forall id :: 0 <= id < |s.sockets| ==> !Live(s.sockets[id])
  }

  /** Events other than those that connect. */
  predicate LeavesDown(s: State, e: Event) {
    !e.Mount? && !e.Reconnect? && !(e.TimerFires? && e.timer in s.pending)
  }

  lemma StepStaysDown(s: State, e: Event)
    requires IsDown(s) && LeavesDown(s, e)
    ensures var t := Step(s, e);
            IsDown(t) && |t.sockets| == |s.sockets| && t.pending <= s.pending
  {
  }

  lemma {:induction false} DownStaysDown(s: State, events: seq<Event>)
    requires IsDown(s) && Never(Connects, s, events)
    ensures IsDown(Run(s, events)) && |Run(s, events).sockets| == |s.sockets|
    decreases |events|
  {
    if events != [] {
      var front, last := events[..|events| - 1], events[|events| - 1];
      RunToLast(s, events);
      PrefixStates(s, events);
      assert events[..|front|] == front;
      assert Never(Connects, s, front) by {
        forall n | 0 <= n < |front|
          ensures !Connects(StateAt(s, front, n), front[n])
        {
          assert front[..n] == events[..n] && front[n] == events[n];
        }
      }
      DownStaysDown(s, front);
      assert !Connects(StateAt(s, events, |front|), events[|front|]);
      StepStaysDown(Run(s, front), last);
    }
  }

  predicate Connects(s: State, e: Event) {
    !LeavesDown(s, e)
  }

  /** After a manual disconnect the client stays down, without another socket, until it is mounted, told to reconnect, or an older timer fires. */
  lemma DisconnectStaysDown(events: seq<Event>, more: seq<Event>)
    requires Never(Connects, Step(Run(INITIAL, events), Disconnect), more)
    ensures var s := Step(Run(INITIAL, events), Disconnect);
            IsDown(Run(s, more)) && |Run(s, more).sockets| == |s.sockets|
  {
    InitialInvariant();
    RunKeepsInvariant(INITIAL, events);
    DetachKeeps(Run(INITIAL, events));
    DownStaysDown(Step(Run(INITIAL, events), Disconnect), more);
  }

  lemma ConnectKeepsCounters(s: State, throws: bool)
    ensures Connect(s, throws).delays == s.delays && Connect(s, throws).attempts == s.attempts
  {
  }

  lemma SubscriptionsKeepCounters(s: State, channel: string, callback: nat)
    ensures var t, u := Subscribed(s, channel, callback), Unsubscribed(s, channel, callback);
            t.delays == s.delays && t.attempts == s.attempts && u.delays == s.delays && u.attempts == s.attempts
  {
  }

  // ---------------------------------------------------------------- what the code does not guarantee

  /**
   * "Connected implies heartbeat" fails in exactly one way: the close event of an abandoned socket
   * stops the heartbeat of the open one. Any other step that leaves the open socket in place keeps it.
   */
  lemma OnlyStaleCloseStopsHeartbeat(s: State, e: Event)
    requires OneLiveSocket(s) && CurrentIs(s, Open) && s.heartbeat
    requires Step(s, e).current == s.current && CurrentIs(Step(s, e), Open)
    ensures Step(s, e).heartbeat <==>
            !(e.SocketCloses? && e.socket < |s.sockets| && s.current != Some(e.socket) && !s.sockets[e.socket].ready.Closed?)
  {
  }

  /** "Connected implies heartbeat": the open socket has its heartbeat and is shown as connected. */
  predicate Beating(s: State) {
    CurrentIs(s, Open) ==> s.heartbeat && s.connection.IsConnected?
  }

  /** The close event of another socket that is not closed yet. */
  predicate ClosesAnother(s: State, e: Event) {
    e.SocketCloses? && e.socket < |s.sockets| && !s.sockets[e.socket].ready.Closed? && s.current != Some(e.socket)
  }

  /** Such an event arrives while the current socket is open. */
  predicate SilencesOpen(s: State, e: Event) {
    CurrentIs(s, Open) && ClosesAnother(s, e)
  }

  lemma CloseBeatsExactly(s: State, id: nat)
    requires OneLiveSocket(s) && Beating(s) && id < |s.sockets|
    ensures Beating(ClosedEvent(s, id)) <==> !(CurrentIs(s, Open) && s.current != Some(id))
  {
  }

  lemma OtherStepBeats(s: State, e: Event)
    requires OneLiveSocket(s) && Beating(s) && !e.SocketCloses?
    ensures Beating(Step(s, e))
  {
  }

  /** A step leaves the connection with a heartbeat unless it closes another socket; in particular opening starts one. */
  lemma StepBeatsExactly(s: State, e: Event)
    requires Invariant(s) && Beating(s)
    ensures Beating(Step(s, e)) <==> !SilencesOpen(s, e)
  {
    if e.SocketCloses? {
      if e.socket < |s.sockets| {
        CloseBeatsExactly(s, e.socket);
      }
    } else {
      OtherStepBeats(s, e);
    }
  }

  /** The last event of a run is a step from the state before it. */
  lemma {:induction false} RunToLast(s: State, events: seq<Event>)
    requires events != []
    ensures Run(s, events) == Step(Run(s, events[..|events| - 1]), events[|events| - 1])
    decreases |events|
  {
    if |events| == 1 {
      assert events[..0] == [] && events[1..] == [];
    } else {
      var u, rest := Step(s, events[0]), events[1..];
      RunToLast(u, rest);
      assert events[..|events| - 1][0] == events[0] && events[..|events| - 1][1..] == rest[..|rest| - 1];
      assert Run(s, events[..|events| - 1]) == Run(u, rest[..|rest| - 1]);
      assert rest[|rest| - 1] == events[|events| - 1];
    }
  }

  /** The states a run goes through, first and last included. */
  function StateAt(s: State, events: seq<Event>, n: nat): State
    requires n <= |events|
  {
    Run(s, events[..n])
  }

  lemma PrefixStates(s: State, events: seq<Event>)
    requires events != []
    ensures var front := events[..|events| - 1];
            && (forall n :: 0 <= n <= |front| ==> StateAt(s, events, n) == StateAt(s, front, n))
            && StateAt(s, events, |front|) == Run(s, front)
            && StateAt(s, events, |events|) == Step(Run(s, front), events[|front|])
  {
    var front := events[..|events| - 1];
    RunToLast(s, events);
    assert events[..|events|] == events;
    forall n | 0 <= n <= |front|
      ensures StateAt(s, events, n) == StateAt(s, front, n)
    {
      assert events[..n] == front[..n];
    }
  }

  predicate Always(p: State -> bool, s: State, events: seq<Event>) {
    forall n :: 0 <= n <= |events| ==> p(StateAt(s, events, n))
  }

  predicate Never(q: (State, Event) -> bool, s: State, events: seq<Event>) {
    forall n :: 0 <= n < |events| ==> !q(StateAt(s, events, n), events[n])
  }

  lemma OneMoreState(p: State -> bool, q: (State, Event) -> bool, s: State, events: seq<Event>)
    requires events != []
    ensures var front := events[..|events| - 1];
            && (Always(p, s, events) <==> Always(p, s, front) && p(Run(s, events)))
            && (Never(q, s, events) <==> Never(q, s, front) && !q(Run(s, front), events[|front|]))
            && (Always(p, s, front) ==> p(Run(s, front)))
            && Run(s, events) == Step(Run(s, front), events[|front|])
  {
    var front := events[..|events| - 1];
    PrefixStates(s, events);
    RunToLast(s, events);
    assert StateAt(s, front, |front|) == Run(s, front);
  }

  /** A property that each step keeps exactly unless something happens holds in all states of a run exactly when it never does. */
  lemma {:induction false} ExactOverRuns(p: State -> bool, q: (State, Event) -> bool, s: State, events: seq<Event>)
    requires Invariant(s) && p(s)
    requires forall t, e :: Invariant(t) && p(t) ==> (p(Step(t, e)) <==> !q(t, e))
    ensures Always(p, s, events) <==> Never(q, s, events)
    decreases |events|
  {
    if events == [] {
      assert StateAt(s, events, 0) == s;
    } else {
      var front := events[..|events| - 1];
      ExactOverRuns(p, q, s, front);
      OneMoreState(p, q, s, events);
      RunKeepsInvariant(s, front);
    }
  }

  /**
   * When "connected implies heartbeat" holds: all states of a run keep it exactly when no close event of another socket
   * ever arrives while the current one is open.
   */
  lemma RunsBeatExactly(s: State, events: seq<Event>)
    requires Invariant(s) && Beating(s)
    ensures Always(Beating, s, events) <==> Never(SilencesOpen, s, events)
  {
    forall t, e | Invariant(t) && Beating(t)
      ensures Beating(Step(t, e)) <==> !SilencesOpen(t, e)
    {
      StepBeatsExactly(t, e);
    }
    ExactOverRuns(Beating, SilencesOpen, s, events);
  }

  /** "Connected implies that no reconnect is pending". */
  predicate Calm(s: State) {
    CurrentIs(s, Open) ==> s.pending == {}
  }

  /** A close event of another socket that sets a reconnect timer. */
  predicate SchedulesForAnother(s: State, e: Event) {
    ClosesAnother(s, e) && s.mounted && !s.manual && s.attempts < MAX_RECONNECT_ATTEMPTS
  }

  /** Such a timer is set while the current socket is open, or the current socket opens with a timer left over. */
  predicate Stirs(s: State, e: Event) {
    || (CurrentIs(s, Open) && SchedulesForAnother(s, e))
    || (e.SocketOpens? && s.current == Some(e.socket) && CurrentIs(s, Connecting) && s.pending != {})
  }

  lemma CloseIsCalmExactly(s: State, id: nat)
    requires OneLiveSocket(s) && Calm(s) && id < |s.sockets| && !s.sockets[id].ready.Closed?
    ensures Calm(ClosedEvent(s, id)) <==> !(CurrentIs(s, Open) && SchedulesForAnother(s, SocketCloses(id)))
  {
  }

  lemma OpenIsCalmExactly(s: State, id: nat)
    requires OneLiveSocket(s) && Calm(s) && id < |s.sockets| && s.sockets[id].ready.Connecting?
    ensures Calm(Opened(s, id)) <==> !(s.current == Some(id) && s.pending != {})
  {
  }

  lemma OtherStepIsCalm(s: State, e: Event)
    requires OneLiveSocket(s) && Calm(s) && !e.SocketCloses? && !e.SocketOpens?
    ensures Calm(Step(s, e))
  {
  }

  lemma StepIsCalmExactly(s: State, e: Event)
    requires Invariant(s) && Calm(s)
    ensures Calm(Step(s, e)) <==> !Stirs(s, e)
  {
    match e
    case SocketCloses(id) =>
      if id < |s.sockets| && !s.sockets[id].ready.Closed? {
        CloseIsCalmExactly(s, id);
      }
    case SocketOpens(id) =>
      if id < |s.sockets| && s.sockets[id].ready.Connecting? {
        OpenIsCalmExactly(s, id);
      }
    case _ =>
      OtherStepIsCalm(s, e);
  }

  /**
   * When "connected implies that no reconnect is pending" holds: all states of a run keep it exactly when no close event of
   * another socket sets a timer while the current one is open, and no socket opens with a timer left over.
   */
  lemma RunsAreCalmExactly(s: State, events: seq<Event>)
    requires Invariant(s) && Calm(s)
    ensures Always(Calm, s, events) <==> Never(Stirs, s, events)
  {
    forall t, e | Invariant(t) && Calm(t)
      ensures Calm(Step(t, e)) <==> !Stirs(t, e)
    {
      StepIsCalmExactly(t, e);
    }
    ExactOverRuns(Calm, Stirs, s, events);
  }

  /** Every pending timer is the referenced one, and none is pending while there is a current socket. */
  predicate TimersInHand(s: State) {
    && (s.timer.Some? ==> s.timer.value < s.timersMade)
    && s.pending <= (if s.timer.Some? then {s.timer.value} else {})
    && (s.current.Some? ==> s.pending == {})
  }

  /** A close event of another socket sets a timer over a current socket or over a timer that is pending already. */
  predicate LosesTimer(s: State, e: Event) {
    SchedulesForAnother(s, e) && (s.current.Some? || s.pending != {})
  }

  lemma CloseKeepsTimersExactly(s: State, id: nat)
    requires TimersInHand(s) && id < |s.sockets| && !s.sockets[id].ready.Closed?
    ensures TimersInHand(ClosedEvent(s, id)) <==> !LosesTimer(s, SocketCloses(id))
  {
    var t := ClosedEvent(s, id);
    if t.pending != s.pending {
      assert s.timersMade in t.pending && s.timersMade !in s.pending;
      assert s.pending != {} ==> exists timer :: timer in s.pending && timer in t.pending;
    }
  }

  lemma ConnectKeepsTimers(s: State, timer: nat, throws: bool)
    requires TimersInHand(s)
    ensures TimersInHand(Connect(s.(mounted := true), throws))
    ensures timer in s.pending ==> TimersInHand(Connect(s.(pending := s.pending - {timer}), throws))
  {
  }

  lemma OtherStepKeepsTimers(s: State, e: Event)
    requires TimersInHand(s) && !e.SocketCloses? && !e.Mount? && !e.TimerFires?
    ensures TimersInHand(Step(s, e))
  {
  }

  lemma StepKeepsTimersExactly(s: State, e: Event)
    requires Invariant(s) && TimersInHand(s)
    ensures TimersInHand(Step(s, e)) <==> !LosesTimer(s, e)
  {
    match e
    case SocketCloses(id) =>
      if id < |s.sockets| && !s.sockets[id].ready.Closed? {
        CloseKeepsTimersExactly(s, id);
      }
    case Mount(throws) => ConnectKeepsTimers(s, 0, throws);
    case TimerFires(timer, throws) => ConnectKeepsTimers(s, timer, throws);
    case _ => OtherStepKeepsTimers(s, e);
  }

  /**
   * Where left-over timers come from: all states of a run keep at most one timer, referenced, and none beside a current
   * socket, exactly when no close event of another socket sets one over a current socket or a pending timer. A run without
   * such an event is never connected with a reconnect pending.
   */
  lemma RunsKeepTimersExactly(s: State, events: seq<Event>)
    requires Invariant(s) && TimersInHand(s)
    ensures Always(TimersInHand, s, events) <==> Never(LosesTimer, s, events)
    ensures Never(LosesTimer, s, events) ==> Always(Calm, s, events)
  {
    forall t, e | Invariant(t) && TimersInHand(t)
      ensures TimersInHand(Step(t, e)) <==> !LosesTimer(t, e)
    {
      StepKeepsTimersExactly(t, e);
    }
    ExactOverRuns(TimersInHand, LosesTimer, s, events);
  }

  /** A run that ends connected without a heartbeat and with a reconnect already scheduled. */
  lemma ConnectedWithoutHeartbeat()
    ensures var s := Run(INITIAL, [Mount(false), SocketOpens(0), Reconnect, TimerFires(0, false), SocketOpens(1), SocketCloses(0)]);
            CurrentIs(s, Open) && !s.heartbeat && s.pending != {} && s.connection.IsReconnecting?
  {
    var events := [Mount(false), SocketOpens(0), Reconnect, TimerFires(0, false), SocketOpens(1), SocketCloses(0)];
    var s1 := Step(INITIAL, events[0]);
    var s2 := Step(s1, events[1]);
    var s3 := Step(s2, events[2]);
    var s4 := Step(s3, events[3]);
    var s5 := Step(s4, events[4]);
    var s6 := Step(s5, events[5]);
    assert Run(INITIAL, events) == Run(s1, events[1..]);
    assert Run(s1, events[1..]) == Run(s2, events[1..][1..]) && events[1..][1..] == events[2..];
    assert Run(s2, events[2..]) == Run(s3, events[2..][1..]) && events[2..][1..] == events[3..];
    assert Run(s3, events[3..]) == Run(s4, events[3..][1..]) && events[3..][1..] == events[4..];
    assert Run(s4, events[4..]) == Run(s5, events[4..][1..]) && events[4..][1..] == events[5..];
    assert Run(s5, events[5..]) == Run(s6, events[5..][1..]) && events[5..][1..] == [];
    assert 2 in s6.pending || 1 in s6.pending;
  }

  // ---------------------------------------------------------------- the hook

  /** The refs of the hook, and its event handlers. Each handler performs exactly its event. */
  class Client {
    var sockets: seq<Socket>
    var current: Option<nat>
    var mounted: bool
    var manual: bool
    var attempts: nat
    var timer: Option<nat>
    var pending: set<nat>
    var timersMade: nat
    var heartbeat: bool
    var subscriptions: map<string, set<nat>>
    var connection: ConnectionState
    ghost var delays: seq<nat>

    ghost function Abs(): State
      reads this
    {
      State(sockets, current, mounted, manual, attempts, timer, pending, timersMade, heartbeat, subscriptions, connection, delays)
    }

    constructor ()
      ensures Abs() == INITIAL
    {
      sockets, current, mounted, manual, attempts := [], None, false, false, 0;
      timer, pending, timersMade, heartbeat := None, {}, 0, false;
      subscriptions, connection, delays := map[], IsDisconnected, [];
    }

    method ClearReconnectTimer()
      modifies this`pending, this`timer
      ensures Abs() == ClearTimer(old(Abs()))
    {
      if timer.Some? {
        pending := pending - {timer.value};
        timer := None;
      }
    }

    method SetReconnectTimer()
      modifies this`pending, this`timer, this`timersMade
      ensures Abs() == SetTimer(old(Abs()))
    {
      timer := Some(timersMade);
      pending := pending + {timersMade};
      timersMade := timersMade + 1;
    }

    method IsCurrently(ready: ReadyState) returns (yes: bool)
      ensures yes <==> CurrentIs(Abs(), ready)
    {
      yes := current.Some? && current.value < |sockets| && sockets[current.value].ready == ready;
    }

    method CloseSocket(id: Option<nat>)
      modifies this`sockets
      ensures sockets == Shut(old(sockets), id)
    {
      if id.Some? && id.value < |sockets| && (sockets[id.value].ready.Connecting? || sockets[id.value].ready.Open?) {
        sockets := sockets[id.value := Socket(Closing, sockets[id.value].carried)];
      }
    }

    /** `send` on the current socket, if it is open. */
    method SendFrame(subscribe: set<string>, unsubscribe: set<string>)
      modifies this`sockets
      ensures Abs() == Send(old(Abs()), subscribe, unsubscribe)
    {
      var open := IsCurrently(Open);
      if open {
        var socket := sockets[current.value];
        sockets := sockets[current.value := Socket(Open, socket.carried + subscribe - unsubscribe)];
      }
    }

    method DetachSocket()
      modifies this
      ensures Abs() == Detach(old(Abs()))
    {
      manual := true;
      ClearReconnectTimer();
      heartbeat := false;
      var socket := current;
      current := None;
      CloseSocket(socket);
    }

    method ConnectNow(constructorThrows: bool)
      modifies this
      ensures Abs() == Connect(old(Abs()), constructorThrows)
    {
      if !mounted { return; }
      var open := IsCurrently(Open);
      var connecting := IsCurrently(Connecting);
      if open || connecting { return; }
      ClearReconnectTimer();
      manual := false;
      connection := if attempts > 0 then IsReconnecting else IsConnecting;
      if constructorThrows {
        connection := IsDisconnected;
        return;
      }
      current := Some(|sockets|);
      sockets := sockets + [Socket(Connecting, {})];
    }

    method OnMount(constructorThrows: bool)
      modifies this
      ensures Abs() == Step(old(Abs()), Event.Mount(constructorThrows))
    {
      mounted := true;
      ConnectNow(constructorThrows);
    }

    method OnUnmount()
      modifies this
      ensures Abs() == Step(old(Abs()), Event.Unmount)
    {
      mounted := false;
      DetachSocket();
    }

    method OnOpen(id: nat)
      modifies this
      ensures Abs() == Step(old(Abs()), Event.SocketOpens(id))
    {
      if id >= |sockets| || !sockets[id].ready.Connecting? { return; }
      sockets := sockets[id := Socket(Open, sockets[id].carried)];
      if !mounted || current != Some(id) {
        CloseSocket(Some(id));
        return;
      }
      StartSession();
    }

    /** The part of the open handler for the current socket: counters, heartbeat and resubscription. */
    method StartSession()
      modifies this
      ensures Abs() == Send(old(Abs()).(attempts := 0, delays := [], connection := IsConnected, heartbeat := true),
                            old(subscriptions).Keys, {})
    {
      attempts, delays := 0, [];
      connection := IsConnected;
      heartbeat := true;
      if subscriptions.Keys != {} {
        SendFrame(subscriptions.Keys, {});
      } else if current.Some? && current.value < |sockets| && sockets[current.value].ready.Open? {
        var id := current.value;
        assert sockets[id := Socket(Open, sockets[id].carried + {} - {})] == sockets;
      }
    }

    method OnPeerClosing(id: nat)
      modifies this
      ensures Abs() == Step(old(Abs()), Event.SocketStartsClosing(id))
    {
      CloseSocket(Some(id));
    }

    method OnClose(id: nat)
      modifies this
      ensures Abs() == Step(old(Abs()), Event.SocketCloses(id))
    {
      if id >= |sockets| || sockets[id].ready.Closed? { return; }
      sockets := sockets[id := Socket(Closed, sockets[id].carried)];
      if current == Some(id) { current := None; }
      heartbeat := false;
      if !mounted || manual {
        connection := IsDisconnected;
        return;
      }
      var nextAttempt := attempts + 1;
      attempts := nextAttempt;
      if nextAttempt > MAX_RECONNECT_ATTEMPTS {
        connection := IsDisconnected;
        return;
      }
      connection := IsReconnecting;
      delays := delays + [RECONNECT_DELAY_MS * (if nextAttempt <= 5 then nextAttempt else 5)];
      SetReconnectTimer();
    }

    method OnTimer(id: nat, constructorThrows: bool)
      modifies this
      ensures Abs() == Step(old(Abs()), Event.TimerFires(id, constructorThrows))
    {
      if id !in pending { return; }
      pending := pending - {id};
      ConnectNow(constructorThrows);
    }

    method SubscribeTo(channel: string, callback: nat)
      modifies this
      ensures Abs() == Step(old(Abs()), Event.Subscribe(channel, callback))
    {
      var isNewChannel := channel !in subscriptions;
      var subscribers := if isNewChannel then {} else subscriptions[channel];
      subscriptions := subscriptions[channel := subscribers + {callback}];
      if isNewChannel {
        SendFrame({channel}, {});
      }
    }

    /** Both `unsubscribe` and the closure returned by `subscribe`. */
    method UnsubscribeFrom(channel: string, callback: nat)
      modifies this
      ensures Abs() == Step(old(Abs()), Event.Unsubscribe(channel, callback))
    {
      if channel !in subscriptions { return; }
      var subscribers := subscriptions[channel] - {callback};
      if subscribers != {} {
        subscriptions := subscriptions[channel := subscribers];
        return;
      }
      subscriptions := subscriptions - {channel};
      if channel != SYSTEM {
        SendFrame({}, {channel});
      }
    }

    method DisconnectManually()
      modifies this
      ensures Abs() == Step(old(Abs()), Event.Disconnect)
    {
      DetachSocket();
      attempts, delays := 0, [];
      connection := IsDisconnected;
    }

    method ReconnectManually()
      modifies this
      ensures Abs() == Step(old(Abs()), Event.Reconnect)
    {
      DisconnectManually();
      manual := false;
      SetReconnectTimer();
    }
  }
}
