/**
WebSocketManager as the class it is. Every method is proved to make exactly one step of the model,
from any reachable state, so its fields keep the agreements proved there.
*/
module WebSocketClient {
  import opened Common
  import opened WebSocket

  // What the client sends over an open socket.
  datatype Message = SubscribeMessage(channel: Channel, request: Request) | UnsubscribeMessage(channel: Channel)

  lemma PendingUnannounced(max: nat, steps: seq<Step>)
    requires Reachable(max, steps)
    ensures At(max, steps).socket.Pending? ==> At(max, steps).server == {}
  {
    InitialInv(max);
    RunKeepsInv(max, INITIAL, steps);
  }

  class WebSocketManager {
    const maxReconnectAttempts: nat
    var socket: Socket
    var status: Status
    var token: Option<nat>
    var explicitDisconnect: bool
    var reconnectAttempt: nat
    var reconnectTimer: bool
    var heartbeatTimer: bool
    var activeSubscriptions: map<Channel, Request>
    var subscriptionRefCounts: map<Channel, nat>
    var lastSequenceId: Option<int>
    var received: seq<int>
    var invalidations: seq<(int, int)>   // invalidateAllDomainCaches, with the gap that caused it
    var announced: set<Channel>          // the server's side of the connection
    var closing: bool
    var handles: map<Handle, Channel>
    ghost var history: seq<Step>

    function View(): Manager
      reads this
    {
      Manager(socket, status, token.Some?, explicitDisconnect, reconnectAttempt, reconnectTimer, heartbeatTimer, activeSubscriptions,
              subscriptionRefCounts, lastSequenceId, received, invalidations, announced, closing, handles)
    }

    ghost predicate Valid()
      reads this
    {
      Run(maxReconnectAttempts, INITIAL, history) == Some(View())
    }

    constructor (maxReconnectAttempts: nat)
      ensures Valid() && View() == INITIAL && this.maxReconnectAttempts == maxReconnectAttempts
    {
      this.maxReconnectAttempts := maxReconnectAttempts;
      socket, status, token := NoSocket, Disconnected, None;
      explicitDisconnect, reconnectAttempt, reconnectTimer, heartbeatTimer := false, 0, false, false;
      activeSubscriptions, subscriptionRefCounts := map[], map[];
      lastSequenceId, received, invalidations := None, [], [];
      announced, closing, handles, history := {}, false, map[], [];
    }

    method Send(message: Message)
      modifies this`announced
      ensures announced == if !socket.Open? then old(announced)
                           else match message case SubscribeMessage(c, _) => old(announced) + {c} case UnsubscribeMessage(c) => old(announced) - {c}
    {
      if socket.Open? {
        match message
        case SubscribeMessage(c, _) => announced := announced + {c};
        case UnsubscribeMessage(c) => announced := announced - {c};
      }
    }

    method ScheduleReconnectTimer()
      modifies this`status, this`reconnectAttempt, this`reconnectTimer
      ensures View() == ScheduleReconnect(maxReconnectAttempts, old(View()))
    {
      if explicitDisconnect || token.None? {
        status := Disconnected;
        return;
      }
      if reconnectAttempt >= maxReconnectAttempts {
        status := Error;
        return;
      }
      status := Reconnecting;
      reconnectAttempt := reconnectAttempt + 1;
      reconnectTimer := true;
    }

    // new WebSocket(url): the constructor may throw.
    method Create(constructed: bool)
      modifies this`status, this`reconnectAttempt, this`reconnectTimer, this`socket, this`announced
      ensures View() == CreateSocket(maxReconnectAttempts, old(View()), constructed)
    {
      if token.None? {
        status := Disconnected;
        return;
      }
      if constructed {
        socket := Pending;
        announced := {};
      } else {
        status := Error;
        ScheduleReconnectTimer();
      }
    }

    /** connect(token): no second connection while one is up, coming up or scheduled. */
    method ConnectTo(accessToken: nat, constructed: bool)
      requires Busy(View()) || (socket.NoSocket? && !closing)
      modifies this
      ensures View() == ConnectWith(maxReconnectAttempts, old(View()), constructed) && token == Some(accessToken)
      ensures history == old(history)
    {
      token := Some(accessToken);
      explicitDisconnect := false;
      if !(status.Connected? || status.Connecting? || status.Reconnecting?) {
        status := if reconnectAttempt > 0 then Reconnecting else Connecting;
        Create(constructed);
      }
    }

    method ResubscribeAll()
      requires socket.Open?
      modifies this`announced
      ensures announced == old(announced) + activeSubscriptions.Keys
    {
      var todo := activeSubscriptions.Keys;
      while todo != {}
        invariant todo <= activeSubscriptions.Keys && announced == old(announced) + (activeSubscriptions.Keys - todo)
        decreases todo
      {
        var c :| c in todo;
        Send(SubscribeMessage(c, activeSubscriptions[c]));
        todo := todo - {c};
      }
    }

    method MarkOpen()
      modifies this`socket, this`status, this`reconnectAttempt, this`reconnectTimer, this`heartbeatTimer
      ensures View() == old(View()).(socket := Open, status := Connected, attempt := 0, timer := false, heartbeat := true)
    {
      socket, status, reconnectAttempt := Open, Connected, 0;
      reconnectTimer, heartbeatTimer := false, true;
    }

    /** handleOpen re-announces every active channel over the new connection. */
    method OnOpen()
      requires socket.Pending? && announced == {}
      modifies this
      ensures View() == HandleOpen(old(View()))
      ensures history == old(history)
    {
      MarkOpen();
      ResubscribeAll();
    }

    method OnError()
      requires !socket.NoSocket?
      modifies this
      ensures View() == old(View()).(status := Error)
      ensures history == old(history)
    {
      status := Error;
    }

    // handleClose of the current socket, with its close code.
    method OnClose(code: nat)
      requires !socket.NoSocket?
      modifies this
      ensures View() == HandleClose(maxReconnectAttempts, old(View()), code == 1008 || code == 4001 || code == 4003)
      ensures history == old(history)
    {
      heartbeatTimer := false;
      socket := NoSocket;
      if explicitDisconnect {
        status := Disconnected;
        return;
      }
      if code == 1008 || code == 4001 || code == 4003 {
        status := Disconnected;
        return;
      }
      ScheduleReconnectTimer();
    }

    // The reconnect timer.
    method TimerExpires(constructed: bool)
      requires reconnectTimer
      modifies this
      ensures View() == CreateSocket(maxReconnectAttempts, old(View()).(timer := false), constructed)
      ensures history == old(history)
    {
      reconnectTimer := false;
      Create(constructed);
    }

    /** processEventEnvelope: an envelope without an event type is ignored; a jump in the sequence
        invalidates all caches. */
    method ProcessEventEnvelope(eventType: string, sequenceId: Option<int>) returns (invalidatedAll: bool)
      modifies this
      ensures View() == if eventType == "" || sequenceId.None? then old(View()) else Track(old(View()), sequenceId.value)
      ensures history == old(history)
      ensures invalidatedAll <==> invalidations != old(invalidations)
    {
      invalidatedAll := false;
      if eventType == "" { return; }
      if sequenceId.Some? {
        if lastSequenceId.Some? && sequenceId.value > lastSequenceId.value + 1 {
          invalidatedAll := true;
          invalidations := invalidations + [(lastSequenceId.value, sequenceId.value)];
        }
        lastSequenceId := sequenceId;
        received := received + [sequenceId.value];
      }
    }

    method CountUp(channel: Channel, request: Request) returns (currentCount: nat)
      modifies this`subscriptionRefCounts, this`activeSubscriptions
      ensures currentCount == Count(old(View()), channel)
      ensures View() == old(View()).(counts := old(subscriptionRefCounts)[channel := currentCount + 1], active := old(activeSubscriptions)[channel := request])
    {
      currentCount := if channel in subscriptionRefCounts then subscriptionRefCounts[channel] else 0;
      subscriptionRefCounts := subscriptionRefCounts[channel := currentCount + 1];
      activeSubscriptions := activeSubscriptions[channel := request];
    }

    /** subscribeChannel: one more holder; announced when it is the first and the socket is open. */
    method SubscribeChannel(h: Handle, channel: Channel, request: Request)
      requires h !in handles
      modifies this
      ensures View() == Subscribed(old(View()), h, channel, request)
      ensures history == old(history)
    {
      var currentCount := CountUp(channel, request);
      if currentCount == 0 {
        Send(SubscribeMessage(channel, request));
      }
      handles := handles[h := channel];
    }

    /** The release closure: the channel is withdrawn when the count says its last holder goes. */
    method ReleaseHandle(h: Handle)
      requires h in handles
      modifies this
      ensures View() == Released(old(View()), h)
      ensures history == old(history)
    {
      var channel := handles[h];
      var count := if channel in subscriptionRefCounts then subscriptionRefCounts[channel] else 0;
      if count <= 1 {
        subscriptionRefCounts := subscriptionRefCounts - {channel};
        activeSubscriptions := activeSubscriptions - {channel};
        Send(UnsubscribeMessage(channel));
      } else {
        subscriptionRefCounts := subscriptionRefCounts[channel := count - 1];
      }
      handles := handles - {h};
    }

    method ClearTimers()
      modifies this`reconnectTimer, this`heartbeatTimer
      ensures View() == old(View()).(timer := false, heartbeat := false)
    {
      reconnectTimer := false;
      heartbeatTimer := false;
    }

    // socket.close(1000): its close event is still to come.
    method CloseSocket()
      modifies this`status, this`closing, this`socket
      ensures View() == old(View()).(status := Closing, closing := true, socket := NoSocket)
    {
      status := Closing;
      closing := true;
      socket := NoSocket;
    }

    /** disconnect(): closes the socket, whose close event comes later, and cancels the timers. */
    method DisconnectNow()
      modifies this`explicitDisconnect, this`token, this`reconnectAttempt, this`reconnectTimer, this`heartbeatTimer
      modifies this`status, this`closing, this`socket
      ensures View() == LogOut(old(View()))
    {
      explicitDisconnect, token, reconnectAttempt := true, None, 0;
      ClearTimers();
      if !socket.NoSocket? {
        CloseSocket();
      }
      status := Disconnected;
    }

    // The close event of the socket that disconnect closed.
    method OnLateClose()
      requires closing
      modifies this
      ensures View() == HandleLateClose(old(View()))
      ensures history == old(history)
    {
      heartbeatTimer := false;
      closing := false;
      status := Disconnected;
    }

    /** Whatever happens next: the manager stays in a reachable state of the model. */
    method Turn(t: Step, accessToken: nat)
      requires Valid() && Enabled(View(), t)
      modifies this
      ensures Valid() && View() == Next(maxReconnectAttempts, old(View()), t) && history == old(history) + [t]
    {
      RunSnoc(maxReconnectAttempts, INITIAL, history, t);
      PendingUnannounced(maxReconnectAttempts, history);
      match t {
        case Connect(constructed) => ConnectTo(accessToken, constructed);
        case Opened => OnOpen();
        case Failed => OnError();
        case Closed(auth) => OnClose(if auth then 4001 else 1006);
        case LateClose => OnLateClose();
        case TimerFires(constructed) => TimerExpires(constructed);
        case Event(id) => var gap := ProcessEventEnvelope("event", id);
        case Subscribe(h, c, request) => SubscribeChannel(h, c, request);
        case Release(h) => ReleaseHandle(h);
        case Disconnect => DisconnectNow();
      }
      history := history + [t];
    }

    /** Any sequence of calls and events. Afterwards each channel's count is its live handles and an
        open socket has announced exactly the channels with one; every id passed over lies in a jump
        that invalidated all caches; no reconnect is scheduled beyond the limit; and the reconnects
        scheduled so far are those counted and those forgotten. */
    method RunSchedule(schedule: seq<(Step, nat)>)
      requires Valid()
      modifies this
      ensures Valid() && old(history) <= history
      ensures forall c: Channel :: (if c in subscriptionRefCounts then subscriptionRefCounts[c] else 0) == |HoldersOf(handles, c)|
      ensures forall c: Channel :: socket.Open? ==> (c in announced <==> exists h :: h in handles && handles[h] == c)
      ensures forall i, x :: 0 <= i < |received| && received[0] < x < received[i] && x !in received[..i + 1] ==> Covered(invalidations, x)
      ensures reconnectAttempt <= maxReconnectAttempts
      ensures Scheduled(maxReconnectAttempts, INITIAL, history) == reconnectAttempt + Forgotten(maxReconnectAttempts, INITIAL, history)
    {
      for k := 0 to |schedule|
        invariant Valid() && old(history) <= history
      {
        if Enabled(View(), schedule[k].0) {
          Turn(schedule[k].0, schedule[k].1);
        }
      }
      Conclusions(maxReconnectAttempts, history);
    }
  }

  // What the theorems about runs say of a reachable manager.
  lemma Conclusions(max: nat, steps: seq<Step>)
    requires Reachable(max, steps)
    ensures var m := At(max, steps);
            && (forall c: Channel :: Count(m, c) == |HoldersOf(m.handles, c)|)
            && (forall c: Channel :: m.socket.Open? ==> (c in m.server <==> exists h :: h in m.handles && m.handles[h] == c))
            && (forall i, x :: 0 <= i < |m.received| && m.received[0] < x < m.received[i] && x !in m.received[..i + 1] ==> Covered(m.jumps, x))
            && m.attempt <= max
            && Scheduled(max, INITIAL, steps) == m.attempt + Forgotten(max, INITIAL, steps)
  {
    var m := At(max, steps);
    forall c: Channel ensures Count(m, c) == |HoldersOf(m.handles, c)| && (m.socket.Open? ==> (c in m.server <==> exists h :: h in m.handles && m.handles[h] == c)) {
      SubscriptionsAgree(max, steps, c);
    }
    forall i, x | 0 <= i < |m.received| && m.received[0] < x < m.received[i] && x !in m.received[..i + 1] ensures Covered(m.jumps, x) {
      NoSilentGap(max, steps, i, x);
    }
    InitialInv(max);
    ReconnectAccount(max, INITIAL, steps);
  }

  lemma {:induction false} RunSnoc(max: nat, m: Manager, steps: seq<Step>, t: Step)
    requires Run(max, m, steps).Some? && Enabled(Run(max, m, steps).value, t)
    ensures Run(max, m, steps + [t]) == Some(Next(max, Run(max, m, steps).value, t))
    decreases |steps|
  {
    if steps == [] {
      assert steps + [t] == [t] && [t][1..] == [];
    } else {
      RunSnoc(max, Next(max, m, steps[0]), steps[1..], t);
      assert (steps + [t])[1..] == steps[1..] + [t];
    }
  }
}
