/**
The desktop client's WebSocketManager: one connection at a time, reconnection with a bounded
budget, reference-counted channel subscriptions and sequence tracking. The model adds what the
browser and the server hold: the socket's state, the close event still to come after disconnect,
the channels announced over the current connection, and the release handles in use.
*/
module WebSocket {
  import opened Common

  type Channel = nat
  type Handle = nat
  type Request = nat      // the contents of a subscription request

  datatype Status = Disconnected | Connecting | Connected | Reconnecting | Closing | Error
  datatype Socket = NoSocket | Pending | Open

  datatype Manager = Manager(
    socket: Socket,
    status: Status,
    token: bool,
    explicitDisconnect: bool,
    attempt: nat,
    timer: bool,                        // a reconnect is scheduled
    heartbeat: bool,
    active: map<Channel, Request>,      // activeSubscriptions
    counts: map<Channel, nat>,          // subscriptionRefCounts
    last: Option<int>,                  // lastSequenceId
    received: seq<int>,                 // sequence ids of the processed events
    jumps: seq<(int, int)>,             // the steps that invalidated all caches
    server: set<Channel>,               // announced over the current connection
    closing: bool,                      // close event of the disconnected socket outstanding
    handles: map<Handle, Channel>       // release handles not used yet
  )

  const INITIAL := Manager(NoSocket, Disconnected, false, false, 0, false, false, map[], map[], None, [], [], {}, false, map[])

  datatype Step =
    | Connect(constructed: bool)              // connect(token); may the constructor throw?
    | Opened
    | Failed                                  // onerror
    | Closed(authFailure: bool)               // onclose
    | LateClose                               // onclose of the socket disconnect() closed
    | TimerFires(constructed: bool)
    | Event(id: Option<int>)                  // an envelope with an event type
    | Subscribe(h: Handle, c: Channel, request: Request)
    | Release(h: Handle)
    | Disconnect

  predicate Busy(m: Manager) { m.status.Connected? || m.status.Connecting? || m.status.Reconnecting? }

  // Sockets do not overlap: connect creates a socket only when none is left of the last one.
  predicate Enabled(m: Manager, t: Step) {
    match t
    case Connect(_) => Busy(m) || (m.socket.NoSocket? && !m.closing)
    case Opened => m.socket.Pending?
    case Failed => !m.socket.NoSocket?
    case Closed(_) => !m.socket.NoSocket?
    case LateClose => m.closing
    case TimerFires(_) => m.timer
    case Event(_) => true
    case Subscribe(h, _, _) => h !in m.handles
    case Release(h) => h in m.handles
    case Disconnect => true
  }

  function Count(m: Manager, c: Channel): nat { if c in m.counts then m.counts[c] else 0 }

  function ScheduleReconnect(max: nat, m: Manager): Manager {
    if m.explicitDisconnect || !m.token then m.(status := Disconnected)
    else if m.attempt >= max then m.(status := Error)
    else m.(status := Reconnecting, attempt := m.attempt + 1, timer := true)
  }

  // A failed constructor leaves no socket and schedules the next attempt.
  function CreateSocket(max: nat, m: Manager, constructed: bool): Manager {
    if !m.token then m.(status := Disconnected)
    else if constructed then m.(socket := Pending, server := {})
    else ScheduleReconnect(max, m.(status := Error))
  }

  function Track(m: Manager, id: int): Manager {
    m.(last := Some(id), received := m.received + [id],
       jumps := if m.last.Some? && id > m.last.value + 1 then m.jumps + [(m.last.value, id)] else m.jumps)
  }

  // subscribeChannel and its release closure.
  function Subscribed(m: Manager, h: Handle, c: Channel, request: Request): Manager {
    m.(handles := m.handles[h := c], counts := m.counts[c := Count(m, c) + 1], active := m.active[c := request],
       server := if Count(m, c) == 0 && m.socket.Open? then m.server + {c} else m.server)
  }

  function Released(m: Manager, h: Handle): Manager
    requires h in m.handles
  {
    var c := m.handles[h];
    if Count(m, c) <= 1
    then m.(handles := m.handles - {h}, counts := m.counts - {c}, active := m.active - {c},
            server := if m.socket.Open? then m.server - {c} else m.server)
    else m.(handles := m.handles - {h}, counts := m.counts[c := Count(m, c) - 1])
  }

  function LogOut(m: Manager): Manager {
    m.(explicitDisconnect := true, token := false, attempt := 0, timer := false, heartbeat := false,
       closing := m.closing || !m.socket.NoSocket?, socket := NoSocket, status := Disconnected)
  }

  function ConnectWith(max: nat, m: Manager, constructed: bool): Manager {
    var n := m.(token := true, explicitDisconnect := false);
    if Busy(m) then n else CreateSocket(max, n.(status := if n.attempt > 0 then Reconnecting else Connecting), constructed)
  }

  function HandleOpen(m: Manager): Manager {
    m.(socket := Open, status := Connected, attempt := 0, timer := false, heartbeat := true, server := m.active.Keys)
  }

  function HandleClose(max: nat, m: Manager, authFailure: bool): Manager {
    var n := m.(socket := NoSocket, heartbeat := false);
    if m.explicitDisconnect || authFailure then n.(status := Disconnected) else ScheduleReconnect(max, n)
  }

  function HandleLateClose(m: Manager): Manager { m.(closing := false, heartbeat := false, status := Disconnected) }

  function Next(max: nat, m: Manager, t: Step): Manager
    requires Enabled(m, t)
  {
    match t
    case Connect(constructed) => ConnectWith(max, m, constructed)
    case Opened => HandleOpen(m)
    case Failed => m.(status := Error)
    case Closed(authFailure) => HandleClose(max, m, authFailure)
    case LateClose => HandleLateClose(m)
    case TimerFires(constructed) => CreateSocket(max, m.(timer := false), constructed)
    case Event(id) => if id.Some? then Track(m, id.value) else m
    case Subscribe(h, c, request) => Subscribed(m, h, c, request)
    case Release(h) => Released(m, h)
    case Disconnect => LogOut(m)
  }

  function Run(max: nat, m: Manager, steps: seq<Step>): Option<Manager>
    decreases |steps|
  {
    if steps == [] then Some(m)
    else if !Enabled(m, steps[0]) then None
    else Run(max, Next(max, m, steps[0]), steps[1..])
  }

  // ---- the invariant ----

  function HoldersOf(handles: map<Handle, Channel>, c: Channel): set<Handle> { set h | h in handles && handles[h] == c }

  function Holders(m: Manager, c: Channel): set<Handle> { HoldersOf(m.handles, c) }

  lemma AddHolder(handles: map<Handle, Channel>, h: Handle, c: Channel, d: Channel)
    requires h !in handles
    ensures |HoldersOf(handles[h := c], d)| == |HoldersOf(handles, d)| + (if d == c then 1 else 0)
  {
    assert HoldersOf(handles[h := c], d) == if d == c then HoldersOf(handles, d) + {h} else HoldersOf(handles, d);
  }

  lemma DropHolder(handles: map<Handle, Channel>, h: Handle, d: Channel)
    requires h in handles
    ensures |HoldersOf(handles - {h}, d)| == |HoldersOf(handles, d)| - (if d == handles[h] then 1 else 0)
  {
    assert d == handles[h] ==> h in HoldersOf(handles, d);
    assert HoldersOf(handles - {h}, d) == if d == handles[h] then HoldersOf(handles, d) - {h} else HoldersOf(handles, d);
  }

  ghost predicate Agreement(m: Manager) {
    && (forall c: Channel :: Count(m, c) == |Holders(m, c)|)
    && (forall c :: c in m.counts ==> m.counts[c] > 0)
    && m.active.Keys == m.counts.Keys
    && (m.socket.Open? ==> m.server == m.active.Keys)
  }

  predicate Connection(max: nat, m: Manager) {
    && m.attempt <= max
    && (m.timer ==> m.socket.NoSocket? && m.token && m.status.Reconnecting? && !m.closing)
    && (m.heartbeat <==> m.socket.Open?)
    && (m.socket.Open? ==> m.attempt == 0)
    && (!m.socket.NoSocket? ==> m.token && !m.closing)
    && (m.token ==> !m.explicitDisconnect)
    && (m.closing ==> !m.token)
    && (!m.token ==> m.status.Disconnected? && m.socket.NoSocket? && !m.timer)
    && (m.status.Connected? ==> m.socket.Open?)
    && (m.status.Connecting? ==> m.socket.Pending?)
    && (m.status.Reconnecting? ==> m.timer || m.socket.Pending?)
    && (m.socket.Pending? ==> m.server == {})
  }

  // The pairs of consecutive ids with a hole between them.
  function Jumps(ids: seq<int>): seq<(int, int)> {
    if |ids| < 2 then []
    else
      var a, b := ids[|ids| - 2], ids[|ids| - 1];
      Jumps(ids[..|ids| - 1]) + (if b > a + 1 then [(a, b)] else [])
  }

  predicate Tracking(m: Manager) {
    && m.jumps == Jumps(m.received)
    && m.last == if m.received == [] then None else Some(m.received[|m.received| - 1])
  }

  ghost predicate Inv(max: nat, m: Manager) { Agreement(m) && Connection(max, m) && Tracking(m) }

  // What each part of the manager leaves alone.
  predicate SameSubscriptions(m: Manager, n: Manager) { n.handles == m.handles && n.counts == m.counts && n.active == m.active }
  predicate SameTracking(m: Manager, n: Manager) { n.last == m.last && n.received == m.received && n.jumps == m.jumps }

  lemma ScheduleFrame(max: nat, m: Manager)
    ensures var n := ScheduleReconnect(max, m);
            SameSubscriptions(m, n) && SameTracking(m, n) && n.socket == m.socket && n.server == m.server
  {
  }

  lemma CreateFrame(max: nat, m: Manager, constructed: bool)
    ensures var n := CreateSocket(max, m, constructed);
            SameSubscriptions(m, n) && SameTracking(m, n) && ((n.socket == m.socket && n.server == m.server) || n.socket.Pending?)
  {
    ScheduleFrame(max, m.(status := Error));
  }

  lemma ConnectionFrame(max: nat, m: Manager, t: Step)
    requires Enabled(m, t) && !t.Subscribe? && !t.Release? && !t.Event?
    ensures var n := Next(max, m, t);
            && SameSubscriptions(m, n) && SameTracking(m, n)
            && (n.socket.Open? ==> (m.socket.Open? && n.server == m.server) || n.server == m.active.Keys)
  {
    match t
    case Connect(constructed) =>
      var n := m.(token := true, explicitDisconnect := false);
      CreateFrame(max, n.(status := if n.attempt > 0 then Reconnecting else Connecting), constructed);
    case TimerFires(constructed) => CreateFrame(max, m.(timer := false), constructed);
    case Closed(_) => ScheduleFrame(max, m.(socket := NoSocket, heartbeat := false));
    case _ =>
  }

  lemma SubscribeAgrees(m: Manager, h: Handle, c: Channel, request: Request)
    requires Agreement(m) && h !in m.handles
    ensures Agreement(Subscribed(m, h, c, request))
  {
    var n := Subscribed(m, h, c, request);
    forall d: Channel ensures Count(n, d) == |Holders(n, d)| {
      AddHolder(m.handles, h, c, d);
      assert Count(m, d) == |Holders(m, d)|;
    }
    assert n.counts.Keys == m.counts.Keys + {c} && n.active.Keys == m.active.Keys + {c};
  }

  lemma ReleasedCount(m: Manager, h: Handle, d: Channel)
    requires h in m.handles && Count(m, m.handles[h]) >= 1
    ensures Count(Released(m, h), d) == Count(m, d) - (if d == m.handles[h] then 1 else 0)
  {
  }

  lemma ReleaseCounts(m: Manager, h: Handle, d: Channel)
    requires h in m.handles
    requires Count(m, d) == |HoldersOf(m.handles, d)| && Count(m, m.handles[h]) == |HoldersOf(m.handles, m.handles[h])|
    ensures Count(Released(m, h), d) == |HoldersOf(m.handles - {h}, d)|
  {
    assert h in HoldersOf(m.handles, m.handles[h]);
    ReleasedCount(m, h, d);
    DropHolder(m.handles, h, d);
  }

  lemma ReleaseKeys(m: Manager, h: Handle)
    requires Agreement(m) && h in m.handles
    ensures var n := Released(m, h);
            && (forall c :: c in n.counts ==> n.counts[c] > 0)
            && n.active.Keys == n.counts.Keys && (n.socket.Open? ==> n.server == n.active.Keys)
  {
    var n, c := Released(m, h), m.handles[h];
    if Count(m, c) <= 1 {
      assert n.counts.Keys == m.counts.Keys - {c} && n.active.Keys == m.active.Keys - {c};
    } else {
      assert n.counts.Keys == m.counts.Keys;
    }
  }

  lemma ReleaseAgrees(m: Manager, h: Handle)
    requires Agreement(m) && h in m.handles
    ensures Agreement(Released(m, h))
  {
    ReleaseKeys(m, h);
    var n, c := Released(m, h), m.handles[h];
    assert Count(m, c) == |Holders(m, c)| && n.handles == m.handles - {h};
    forall d: Channel ensures Count(n, d) == |Holders(n, d)| {
      assert Count(m, d) == |Holders(m, d)|;
      ReleaseCounts(m, h, d);
    }
  }

  lemma FrameAgrees(m: Manager, n: Manager)
    requires Agreement(m) && SameSubscriptions(m, n)
    requires n.socket.Open? ==> (m.socket.Open? && n.server == m.server) || n.server == m.active.Keys
    ensures Agreement(n)
  {
    forall d: Channel ensures Count(n, d) == |Holders(n, d)| {
      assert Count(m, d) == |Holders(m, d)| && Holders(n, d) == Holders(m, d);
    }
  }

  lemma TrackTracks(m: Manager, id: int)
    requires Tracking(m)
    ensures Tracking(Track(m, id))
  {
    var ids := m.received + [id];
    assert ids[..|ids| - 1] == m.received;
  }

  lemma ConnectionStep(max: nat, m: Manager, t: Step)
    requires Connection(max, m) && Enabled(m, t)
    ensures Connection(max, Next(max, m, t))
  {
  }

  /** Every call and every event of the socket keeps the invariant. */
  lemma StepKeepsInv(max: nat, m: Manager, t: Step)
    requires Inv(max, m) && Enabled(m, t)
    ensures Inv(max, Next(max, m, t))
  {
    ConnectionStep(max, m, t);
    match t
    case Subscribe(h, c, request) => SubscribeAgrees(m, h, c, request);
    case Release(h) => ReleaseAgrees(m, h);
    case Event(id) => FrameAgrees(m, Next(max, m, t)); if id.Some? { TrackTracks(m, id.value); }
    case _ => ConnectionFrame(max, m, t); FrameAgrees(m, Next(max, m, t));
  }

  lemma {:induction false} RunKeepsInv(max: nat, m: Manager, steps: seq<Step>)
    requires Inv(max, m) && Run(max, m, steps).Some?
    ensures Inv(max, Run(max, m, steps).value)
    decreases |steps|
  {
    if steps != [] {
      StepKeepsInv(max, m, steps[0]);
      RunKeepsInv(max, Next(max, m, steps[0]), steps[1..]);
    }
  }

  lemma InitialInv(max: nat)
    ensures Inv(max, INITIAL)
  {
    forall c: Channel ensures Count(INITIAL, c) == |Holders(INITIAL, c)| { assert Holders(INITIAL, c) == {}; }
  }

  predicate Reachable(max: nat, steps: seq<Step>) { Run(max, INITIAL, steps).Some? }

  function At(max: nat, steps: seq<Step>): Manager
    requires Reachable(max, steps)
  {
    Run(max, INITIAL, steps).value
  }

  // ---- subscriptions ----

  /** Across any reconnects the reference count of a channel is the number of its live handles, and
      whenever the socket is open the server knows exactly the channels with a live handle. */
  lemma SubscriptionsAgree(max: nat, steps: seq<Step>, c: Channel)
    requires Reachable(max, steps)
    ensures var m := At(max, steps);
            && Count(m, c) == |Holders(m, c)|
            && (c in m.active <==> exists h :: h in m.handles && m.handles[h] == c)
            && (m.socket.Open? ==> (c in m.server <==> exists h :: h in m.handles && m.handles[h] == c))
  {
    InitialInv(max);
    RunKeepsInv(max, INITIAL, steps);
    var m := At(max, steps);
    if h :| h in m.handles && m.handles[h] == c {
      assert h in Holders(m, c);
    } else {
      assert Holders(m, c) == {};
    }
  }

  // ---- sequence gaps ----

  predicate Covered(jumps: seq<(int, int)>, x: int) { exists k :: 0 <= k < |jumps| && jumps[k].0 < x < jumps[k].1 }

  // An id passed over on the way to a later one lies inside some jump.
  lemma {:induction false} PassedOver(ids: seq<int>, x: int)
    requires |ids| >= 1 && ids[0] < x < ids[|ids| - 1] && x !in ids
    ensures Covered(Jumps(ids), x)
    decreases |ids|
  {
    var front := ids[..|ids| - 1];
    assert |ids| >= 2;
    if ids[|ids| - 2] < x {
      var js := Jumps(ids);
      assert js[|js| - 1] == (ids[|ids| - 2], ids[|ids| - 1]);
    } else {
      assert ids[|ids| - 2] in ids && front[|front| - 1] == ids[|ids| - 2];
      PassedOver(front, x);
      var k :| 0 <= k < |Jumps(front)| && Jumps(front)[k].0 < x < Jumps(front)[k].1;
      assert Jumps(ids)[k] == Jumps(front)[k];
    }
  }

  lemma {:induction false} JumpsGrow(ids: seq<int>, n: nat)
    requires n <= |ids|
    ensures Jumps(ids[..n]) <= Jumps(ids)
    decreases |ids|
  {
    if n < |ids| {
      var front := ids[..|ids| - 1];
      assert front[..n] == ids[..n];
      JumpsGrow(front, n);
      if |ids| < 2 { assert ids[..n] == []; }
    } else {
      assert ids[..n] == ids;
    }
  }

  /** No silent gap, whatever order ids arrive in and across reconnects: an id above the first
      received and below any id received since, which had not arrived by then, was jumped over by a
      step that invalidated all caches. */
  lemma NoSilentGap(max: nat, steps: seq<Step>, i: nat, x: int)
    requires Reachable(max, steps)
    requires var m := At(max, steps); i < |m.received| && m.received[0] < x < m.received[i] && x !in m.received[..i + 1]
    ensures Covered(At(max, steps).jumps, x)
  {
    InitialInv(max);
    RunKeepsInv(max, INITIAL, steps);
    var ids := At(max, steps).received;
    PassedOver(ids[..i + 1], x);
    JumpsGrow(ids, i + 1);
    var k :| 0 <= k < |Jumps(ids[..i + 1])| && Jumps(ids[..i + 1])[k].0 < x < Jumps(ids[..i + 1])[k].1;
    assert Jumps(ids)[k] == Jumps(ids[..i + 1])[k];
  }

  // ---- the reconnect budget ----

  predicate Schedules(max: nat, m: Manager, t: Step)
    requires Enabled(m, t)
  {
    Next(max, m, t).attempt > m.attempt
  }

  function Scheduled(max: nat, m: Manager, steps: seq<Step>): nat
    requires Run(max, m, steps).Some?
    decreases |steps|
  {
    if steps == [] then 0
    else (if Schedules(max, m, steps[0]) then 1 else 0) + Scheduled(max, Next(max, m, steps[0]), steps[1..])
  }

  predicate Resets(t: Step) { t.Opened? || t.Disconnect? }

  predicate NoReset(steps: seq<Step>) { forall k :: 0 <= k < |steps| ==> !Resets(steps[k]) }

  // The attempts counted so far that opens and disconnects throw away.
  function Forgotten(max: nat, m: Manager, steps: seq<Step>): nat
    requires Run(max, m, steps).Some?
    decreases |steps|
  {
    if steps == [] then 0
    else (if Resets(steps[0]) then m.attempt else 0) + Forgotten(max, Next(max, m, steps[0]), steps[1..])
  }

  function ResetCount(steps: seq<Step>): nat {
    if steps == [] then 0 else (if Resets(steps[0]) then 1 else 0) + ResetCount(steps[1..])
  }

  // Attempts are counted up one by one, within the limit, until something resets them.
  lemma AttemptCounts(max: nat, m: Manager, t: Step)
    requires Connection(max, m) && Enabled(m, t)
    ensures Connection(max, Next(max, m, t))
    ensures Resets(t) ==> Next(max, m, t).attempt == 0 && !Schedules(max, m, t)
    ensures !Resets(t) ==> Next(max, m, t).attempt == m.attempt + (if Schedules(max, m, t) then 1 else 0)
  {
    ConnectionStep(max, m, t);
  }

  /** The exact account of reconnects over any run: those scheduled are those the counter still shows
      and those that opens and disconnects made it forget, and each reset forgets at most max. */
  lemma {:induction false} ReconnectAccount(max: nat, m: Manager, steps: seq<Step>)
    requires Connection(max, m) && Run(max, m, steps).Some?
    ensures m.attempt + Scheduled(max, m, steps) == Run(max, m, steps).value.attempt + Forgotten(max, m, steps)
    ensures Run(max, m, steps).value.attempt <= max && Forgotten(max, m, steps) <= max * ResetCount(steps)
    decreases |steps|
  {
    if steps != [] {
      AttemptCounts(max, m, steps[0]);
      ReconnectAccount(max, Next(max, m, steps[0]), steps[1..]);
      assert max * (1 + ResetCount(steps[1..])) == max + max * ResetCount(steps[1..]);
    }
  }

  lemma {:induction false} NothingForgotten(max: nat, m: Manager, steps: seq<Step>)
    requires Run(max, m, steps).Some? && NoReset(steps)
    ensures Forgotten(max, m, steps) == 0
    decreases |steps|
  {
    if steps != [] {
      assert !Resets(steps[0]);
      assert NoReset(steps[1..]) by { forall k | 0 <= k < |steps| - 1 ensures !Resets(steps[1..][k]) { assert steps[1..][k] == steps[k + 1]; } }
      NothingForgotten(max, Next(max, m, steps[0]), steps[1..]);
    }
  }

  /** When a run keeps the budget of max reconnects: exactly when what its resets forget leaves room for
      it; so always when nothing opens and nobody disconnects, and between two opens exactly when the
      disconnect calls forgot little enough. */
  lemma ReconnectBudget(max: nat, m: Manager, steps: seq<Step>)
    requires Connection(max, m) && Run(max, m, steps).Some?
    ensures Scheduled(max, m, steps) <= max <==> Run(max, m, steps).value.attempt + Forgotten(max, m, steps) <= max + m.attempt
    ensures NoReset(steps) ==> m.attempt + Scheduled(max, m, steps) == Run(max, m, steps).value.attempt <= max
  {
    ReconnectAccount(max, m, steps);
    if NoReset(steps) { NothingForgotten(max, m, steps); }
  }

  // Log in, fail to connect, log out.
  function LoginAttempts(n: nat): seq<Step> {
    if n == 0 then [] else [Connect(true), Closed(false), Disconnect] + LoginAttempts(n - 1)
  }

  predicate LoggedOut(m: Manager) { m.socket.NoSocket? && m.status.Disconnected? && m.attempt == 0 && !m.closing }

  lemma OneLogin(max: nat, m: Manager)
    requires max >= 1 && LoggedOut(m)
    ensures var once := [Connect(true), Closed(false), Disconnect];
            && Run(max, m, once).Some? && Run(max, m, once).value.socket.NoSocket? && Run(max, m, once).value.status.Disconnected?
            && Run(max, m, once).value.attempt == 0 && !Run(max, m, once).value.closing
            && Scheduled(max, m, once) == 1
  {
    var a := Next(max, m, Connect(true));
    var b := Next(max, a, Closed(false));
    assert a.attempt == 0 && b.attempt == 1 && b.socket.NoSocket? && !b.closing;
    var s2 := [Disconnect];
    var s1 := [Closed(false), Disconnect];
    assert s2[1..] == [] && s1[1..] == s2 && [Connect(true), Closed(false), Disconnect][1..] == s1;
    assert Run(max, b, s2) == Some(Next(max, b, Disconnect)) && Scheduled(max, b, s2) == 0;
    assert Run(max, a, s1) == Run(max, b, s2) && Scheduled(max, a, s1) == 1;
  }

  lemma {:induction false} ScheduledAppend(max: nat, m: Manager, a: seq<Step>, b: seq<Step>)
    requires Run(max, m, a).Some? && Run(max, Run(max, m, a).value, b).Some?
    ensures Run(max, m, a + b) == Run(max, Run(max, m, a).value, b)
    ensures Scheduled(max, m, a + b) == Scheduled(max, m, a) + Scheduled(max, Run(max, m, a).value, b)
    decreases |a|
  {
    if a == [] {
      assert a + b == b;
    } else {
      assert (a + b)[0] == a[0] && (a + b)[1..] == a[1..] + b;
      ScheduledAppend(max, Next(max, m, a[0]), a[1..], b);
    }
  }

  /** Counted from one open to the next there is no bound: disconnect resets the counter, so users
      who log in and out n times without a connection schedule n reconnects. */
  lemma {:induction false} LogoutResetsBudget(max: nat, m: Manager, n: nat)
    requires max >= 1 && LoggedOut(m)
    ensures Run(max, m, LoginAttempts(n)).Some? && LoggedOut(Run(max, m, LoginAttempts(n)).value)
    ensures Scheduled(max, m, LoginAttempts(n)) == n
    ensures forall k :: 0 <= k < |LoginAttempts(n)| ==> !LoginAttempts(n)[k].Opened?
    decreases n
  {
    if n > 0 {
      var once := [Connect(true), Closed(false), Disconnect];
      OneLogin(max, m);
      LogoutResetsBudget(max, Run(max, m, once).value, n - 1);
      ScheduledAppend(max, m, once, LoginAttempts(n - 1));
    }
  }

  /** When a reconnect is scheduled, exactly: within the budget, when the connection is lost for any other
      reason than an authentication failure, or when a socket that was to be created could not be. */
  lemma SchedulesExactly(max: nat, steps: seq<Step>, t: Step)
    requires Reachable(max, steps) && Enabled(At(max, steps), t)
    ensures var m, n := At(max, steps), Next(max, At(max, steps), t);
            && (Schedules(max, m, t) <==>
                  && m.attempt < max
                  && (t == Closed(false) || t == TimerFires(false) || (t == Connect(false) && !Busy(m))))
            && (Schedules(max, m, t) ==> n.timer && n.status.Reconnecting? && n.socket.NoSocket?)
  {
    InitialInv(max);
    RunKeepsInv(max, INITIAL, steps);
  }

  /** What connect and the timer do, exactly: a connection that is up, coming up or scheduled is left alone;
      otherwise, and when the timer fires, one new socket is created if the constructor allows it. */
  lemma ConnectsExactly(max: nat, steps: seq<Step>, t: Step)
    requires Reachable(max, steps) && Enabled(At(max, steps), t) && (t.Connect? || t.TimerFires?)
    ensures var m, n := At(max, steps), Next(max, At(max, steps), t);
            && n.token && !n.explicitDisconnect
            && (t.Connect? && Busy(m) ==> n == m.(token := true, explicitDisconnect := false))
            && (t.TimerFires? || !Busy(m) ==>
                  (n.socket.Pending? <==> t.constructed) && (!t.constructed ==> n.socket.NoSocket? && (n.timer <==> m.attempt < max)))
  {
    InitialInv(max);
    RunKeepsInv(max, INITIAL, steps);
  }

  // ---- the request of a channel ----

  // The request of the last subscription to c.
  function Latest(steps: seq<Step>, c: Channel): Option<Request> {
    if steps == [] then None
    else
      var last := steps[|steps| - 1];
      if last.Subscribe? && last.c == c then Some(last.request) else Latest(steps[..|steps| - 1], c)
  }

  lemma {:induction false} RunPrefix(max: nat, m: Manager, steps: seq<Step>, t: Step)
    requires Run(max, m, steps + [t]).Some?
    ensures Run(max, m, steps).Some? && Enabled(Run(max, m, steps).value, t)
    ensures Run(max, m, steps + [t]) == Some(Next(max, Run(max, m, steps).value, t))
    decreases |steps|
  {
    if steps == [] {
      assert steps + [t] == [t] && [t][1..] == [];
    } else {
      assert (steps + [t])[0] == steps[0] && (steps + [t])[1..] == steps[1..] + [t];
      RunPrefix(max, Next(max, m, steps[0]), steps[1..], t);
    }
  }

  /** What is announced for a channel, again after every reconnect, is its latest subscription request. */
  lemma {:induction false} LatestRequest(max: nat, steps: seq<Step>, c: Channel)
    requires Reachable(max, steps)
    ensures c in At(max, steps).active ==> Latest(steps, c) == Some(At(max, steps).active[c])
    decreases |steps|
  {
    if steps != [] {
      var before, t := steps[..|steps| - 1], steps[|steps| - 1];
      assert steps == before + [t];
      RunPrefix(max, INITIAL, before, t);
      LatestRequest(max, before, c);
      if !t.Subscribe? && !t.Release? && !t.Event? { ConnectionFrame(max, At(max, before), t); }
    }
  }

  // ---- logout ----

  /** After disconnect nothing reconnects: until connect is called there is no socket and no timer,
      whatever late events arrive. */
  lemma {:induction false} LogoutIsFinal(max: nat, m: Manager, steps: seq<Step>)
    requires Inv(max, m) && Run(max, m, steps).Some? && !m.token
    requires forall k :: 0 <= k < |steps| ==> !steps[k].Connect?
    ensures var m' := Run(max, m, steps).value; !m'.token && m'.socket.NoSocket? && !m'.timer && m'.status.Disconnected?
    decreases |steps|
  {
    if steps != [] {
      assert !steps[0].Connect?;
      StepKeepsInv(max, m, steps[0]);
      forall k | 0 <= k < |steps| - 1 ensures !steps[1..][k].Connect? { assert steps[1..][k] == steps[k + 1]; }
      LogoutIsFinal(max, Next(max, m, steps[0]), steps[1..]);
    }
  }

  lemma {:induction false} IdleUntilConnect(max: nat, m: Manager, steps: seq<Step>)
    requires Run(max, m, steps).Some? && m.socket.NoSocket? && !m.timer
    requires forall k :: 0 <= k < |steps| ==> !steps[k].Connect?
    ensures var m' := Run(max, m, steps).value; m'.socket.NoSocket? && !m'.timer
    decreases |steps|
  {
    if steps != [] {
      assert !steps[0].Connect?;
      forall k | 0 <= k < |steps| - 1 ensures !steps[1..][k].Connect? { assert steps[1..][k] == steps[k + 1]; }
      IdleUntilConnect(max, Next(max, m, steps[0]), steps[1..]);
    }
  }

  /** A refused token is final too: after a close for an authentication failure there is no socket and no
      timer until connect is called with a new one. */
  lemma AuthFailureIsFinal(max: nat, steps: seq<Step>, more: seq<Step>)
    requires Reachable(max, steps) && Enabled(At(max, steps), Closed(true))
    requires Run(max, Next(max, At(max, steps), Closed(true)), more).Some? && forall k :: 0 <= k < |more| ==> !more[k].Connect?
    ensures Next(max, At(max, steps), Closed(true)).status.Disconnected?
    ensures var m' := Run(max, Next(max, At(max, steps), Closed(true)), more).value; m'.socket.NoSocket? && !m'.timer
  {
    InitialInv(max);
    RunKeepsInv(max, INITIAL, steps);
    IdleUntilConnect(max, Next(max, At(max, steps), Closed(true)), more);
  }
}
