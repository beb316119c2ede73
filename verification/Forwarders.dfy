/**
 The two forwarding workers of a session, their context-id tables, and the event loop
 between them, one step at a time in any order.

 Each worker's table is held as the worker holds it: ids to addresses on the way out
 of QUIC, addresses to ids on the way in.  A call fails exactly when the worker it
 goes to has exited, or when it is about a socket the worker does not have.
 */
module Forwarders {
  import opened Wrappers
  import opened VarInt
  import opened Capsules
  import opened ContextIds

  // ----- The worker from QUIC to UDP -----

  /** One session's share of the worker: `sockets` has an entry for every source that
      holds one, and `notices` is the channel to the event loop. */
  datatype QuicToUdp = QuicToUdp(up: bool, sockets: set<SocketAddr>, ids: map<U64, Option<SocketAddr>>, notices: seq<Notice>)

  function Register(w: QuicToUdp, id: U64, addr: Option<SocketAddr>): QuicToUdp
  {
    w.(ids := w.ids[id := addr])
  }

  function Unregister(w: QuicToUdp, id: U64): QuicToUdp
  {
    w.(ids := w.ids - {id})
  }

  /** Everything but what names `addr`: the `retain` of `retire`. */
  function Without(ids: map<U64, Option<SocketAddr>>, addr: SocketAddr): map<U64, Option<SocketAddr>>
  {
    map id | id in ids && ids[id] != Some(addr) :: ids[id]
  }

  /** `retire`, for an eviction or from the idle sweep. */
  function Evicted(w: QuicToUdp, addr: SocketAddr): QuicToUdp
  {
    w.(sockets := w.sockets - {addr}, ids := Without(w.ids, addr), notices := w.notices + [RetireSocket(addr)])
  }

  /** A first datagram from `addr`, once there is room for it. */
  function Opened(w: QuicToUdp, addr: SocketAddr, mapped: SocketAddr): QuicToUdp
  {
    w.(sockets := w.sockets + {addr}, notices := w.notices + [NewSocket(addr, mapped)])
  }

  class FromQuicToUdp {
    var up: bool
    var sockets: set<SocketAddr>
    var ids: map<U64, Option<SocketAddr>>
    var notices: seq<Notice>

    function State(): QuicToUdp
      reads this
    {
      QuicToUdp(up, sockets, ids, notices)
    }

    constructor ()
      ensures State() == QuicToUdp(true, {}, map[], [])
    {
      up, sockets, ids, notices := true, {}, map[], [];
    }

    method RegisterContextId(id: U64, addr: Option<SocketAddr>)
      modifies this
      ensures State() == Register(old(State()), id, addr)
    {
      ids := ids[id := addr];
    }

    method UnregisterContextId(id: U64)
      modifies this
      ensures State() == Unregister(old(State()), id)
    {
      if id in ids {
        ids := ids - {id};
      }
    }

    method NotifySocketDisconnected(addr: SocketAddr) returns (ok: bool)
      modifies this
      ensures State() == old(State()).(sockets := old(sockets) - {addr})
      ensures ok <==> addr in old(sockets)
    {
      ok := addr in sockets;
      if ok {
        sockets := sockets - {addr};
      }
    }

    /** `retire`: the entries are dropped one by one as `retain` visits them. */
    method RetireSource(addr: SocketAddr)
      modifies this
      ensures State() == Evicted(old(State()), addr)
    {
      sockets := sockets - {addr};
      var left := ids.Keys;
      while left != {}
        invariant left <= old(ids).Keys
        invariant ids == map id | id in old(ids) && (id in left || old(ids)[id] != Some(addr)) :: old(ids)[id]
        invariant up == old(up) && sockets == old(sockets) - {addr} && notices == old(notices)
        decreases |left|
      {
        var id :| id in left;
        left := left - {id};
        if ids[id] == Some(addr) {
          ids := ids - {id};
        }
      }
      notices := notices + [RetireSocket(addr)];
    }

    method OpenSocket(addr: SocketAddr, mapped: SocketAddr)
      modifies this
      ensures State() == Opened(old(State()), addr, mapped)
    {
      sockets := sockets + {addr};
      notices := notices + [NewSocket(addr, mapped)];
    }
  }

  // ----- The worker from UDP to QUIC -----

  /** `reading` counts the sockets read for a source; `keys` are the sources whose
      socket the worker can still find. */
  datatype UdpToQuic = UdpToQuic(
    up: bool, reading: multiset<SocketAddr>, keys: set<SocketAddr>, ids: map<SocketAddr, U64>,
    uncompressed: Option<U64>, notices: seq<Notice>)

  function RegisterBack(w: UdpToQuic, id: U64, addr: Option<SocketAddr>): UdpToQuic
  {
    match addr
    case Some(a) => w.(ids := w.ids[a := id])
    case None => w.(uncompressed := Some(id))
  }

  function WithoutId(ids: map<SocketAddr, U64>, id: U64): map<SocketAddr, U64>
  {
    map a | a in ids && ids[a] != id :: ids[a]
  }

  function UnregisterBack(w: UdpToQuic, id: U64): UdpToQuic
  {
    w.(ids := WithoutId(w.ids, id), uncompressed := if w.uncompressed == Some(id) then None else w.uncompressed)
  }

  function AddSocket(w: UdpToQuic, addr: SocketAddr): (r: UdpToQuic)
    ensures r.up == w.up && r.ids == w.ids && r.uncompressed == w.uncompressed && r.notices == w.notices
  {
    w.(reading := w.reading[addr := w.reading[addr] + 1], keys := w.keys + {addr})
  }

  /** The socket the worker finds for `addr` is no longer read. */
  function StopReading(w: UdpToQuic, addr: SocketAddr): (r: UdpToQuic)
    ensures r.up == w.up && r.ids == w.ids && r.uncompressed == w.uncompressed && r.notices == w.notices
  {
    w.(keys := w.keys - {addr},
       reading := if addr in w.keys && w.reading[addr] > 0 then w.reading[addr := w.reading[addr] - 1] else w.reading)
  }

  /** An eviction reached the reader: nothing is reported back. */
  function Retired(w: UdpToQuic, addr: SocketAddr): UdpToQuic
  {
    StopReading(w, addr).(ids := w.ids - {addr})
  }

  /** A socket of `addr` failed: the loop hears of it, and of the id it takes along. */
  function ReadFailed(w: UdpToQuic, addr: SocketAddr): UdpToQuic
  {
    StopReading(w, addr).(
      ids := w.ids - {addr},
      notices := w.notices + [SocketDisconnected(addr)]
                 + (if addr in w.ids then [InvalidatedContextId(w.ids[addr])] else []))
  }

  class FromUdpToQuic {
    var up: bool
    var reading: multiset<SocketAddr>
    var keys: set<SocketAddr>
    var ids: map<SocketAddr, U64>
    var uncompressed: Option<U64>
    var notices: seq<Notice>

    function State(): UdpToQuic
      reads this
    {
      UdpToQuic(up, reading, keys, ids, uncompressed, notices)
    }

    constructor ()
      ensures State() == UdpToQuic(true, multiset{}, {}, map[], None, [])
    {
      up, reading, keys, ids, uncompressed, notices := true, multiset{}, {}, map[], None, [];
    }

    method RegisterSocket(addr: SocketAddr)
      modifies this
      ensures State() == AddSocket(old(State()), addr)
    {
      reading := reading[addr := reading[addr] + 1];
      keys := keys + {addr};
    }

    method RegisterContextId(id: U64, addr: Option<SocketAddr>)
      modifies this
      ensures State() == RegisterBack(old(State()), id, addr)
    {
      if addr.Some? {
        ids := ids[addr.value := id];
      } else {
        uncompressed := Some(id);
      }
    }

    method UnregisterContextId(id: U64)
      modifies this
      ensures State() == UnregisterBack(old(State()), id)
    {
      if uncompressed == Some(id) {
        uncompressed := None;
      }
      var left := ids.Keys;
      while left != {}
        invariant left <= old(ids).Keys
        invariant ids == map a | a in old(ids) && (a in left || old(ids)[a] != id) :: old(ids)[a]
        invariant up == old(up) && reading == old(reading) && keys == old(keys) && notices == old(notices)
        invariant uncompressed == if old(uncompressed) == Some(id) then None else old(uncompressed)
        decreases |left|
      {
        var a :| a in left;
        left := left - {a};
        if ids[a] == id {
          ids := ids - {a};
        }
      }
    }

    method DropSocket(addr: SocketAddr)
      modifies this
      ensures State() == StopReading(old(State()), addr)
    {
      if addr in keys {
        keys := keys - {addr};
        if reading[addr] > 0 {
          reading := reading[addr := reading[addr] - 1];
        }
      }
    }

    method RetireSocket(addr: SocketAddr)
      modifies this
      ensures State() == Retired(old(State()), addr)
    {
      DropSocket(addr);
      ids := ids - {addr};
    }

    method OnReadError(addr: SocketAddr)
      modifies this
      ensures State() == ReadFailed(old(State()), addr)
    {
      DropSocket(addr);
      var id := if addr in ids then Some(ids[addr]) else None;
      ids := ids - {addr};
      notices := notices + [SocketDisconnected(addr)];
      if id.Some? {
        notices := notices + [InvalidatedContextId(id.value)];
      }
    }
  }

  // ----- The session -----

  datatype Session = Session(forward: QuicToUdp, back: UdpToQuic, loop: Loop)

  datatype Action =
    | OpenSource(addr: SocketAddr, mapped: SocketAddr, id: U64)
    | EvictSource(addr: SocketAddr)
    | ReadError(addr: SocketAddr)
    | FirstAnswer(addr: SocketAddr)
    | TakeFromForward
    | TakeFromBack
    | LoopGets(notice: Notice)
    | LoopCalls(sent: bool)
    | ForwardExits
    | BackExits

  function Fresh(webRtc: bool): Session
  {
    Session(QuicToUdp(true, {}, map[], []), UdpToQuic(true, multiset{}, {}, map[], None, []), Begin(webRtc))
  }

  /** `OpenSource` needs a datagram under an id the worker knows for that source, and
      no socket for it yet; `EvictSource` picks from the sockets there are, whichever
      of them a limit or the idle sweep would have picked; `FirstAnswer` is reported
      for sockets that are not connected from the start. */
  predicate Enabled(s: Session, a: Action)
  {
    match a
    case OpenSource(addr, _, id) =>
      id in s.forward.ids && (s.forward.ids[id].None? || s.forward.ids[id] == Some(addr)) && addr !in s.forward.sockets
    case EvictSource(addr) => addr in s.forward.sockets
    case ReadError(addr) => s.back.up && addr in s.back.reading
    case FirstAnswer(addr) => s.loop.webRtc && s.back.up && addr in s.back.reading
    case TakeFromForward => s.loop.doing == Waiting && s.forward.notices != []
    case TakeFromBack => s.loop.doing == Waiting && s.back.notices != []
    case LoopGets(n) =>
      s.loop.doing == Waiting && (n.CloseCapsule? || n.NoticesGone? || n.BodyFailed? || n.BodyEnded? || n.Shutdown?)
    case LoopCalls(_) => s.loop.doing != Waiting && s.loop.doing != Stopped
    case ForwardExits => s.forward.up
    case BackExits => s.back.up
  }

  /** What the call in hand is answered: `sent` is for what goes to the proxy. */
  function AnswerTo(s: Session, sent: bool): bool
  {
    match s.loop.doing
    case SettingUp(k) => if k <= 1 then s.forward.up else if k <= 3 then s.back.up else sent
    case SendingMapped(_, _) => sent
    case AddingSocket(_) => s.back.up
    case RegisteringForward(_) => s.forward.up
    case RegisteringBack(_) => s.back.up
    case Announcing(_) => sent
    case Retiring(_) => s.back.up
    case Connecting(addr) => addr in s.forward.sockets
    case Disconnecting(addr) => addr in s.forward.sockets
    case Unregistering(_) => s.forward.up
    case Closing(_) => sent
    case ForgettingBack(_) => s.back.up
    case ForgettingForward(_) => s.forward.up
    case _ => sent
  }

  function ForwardServes(s: Session): QuicToUdp
  {
    if !s.forward.up then s.forward
    else match s.loop.doing
      case SettingUp(k) => if k == 1 then Register(s.forward, 1, None) else s.forward
      case RegisteringForward(addr) => Register(s.forward, s.loop.contextId, Some(addr))
      case Disconnecting(addr) => s.forward.(sockets := s.forward.sockets - {addr})
      case Unregistering(id) => Unregister(s.forward, id)
      case ForgettingForward(id) => Unregister(s.forward, id)
      case _ => s.forward
  }

  function BackServes(s: Session): UdpToQuic
  {
    if !s.back.up then s.back
    else match s.loop.doing
      case SettingUp(k) => if k == 3 then RegisterBack(s.back, 1, None) else s.back
      case AddingSocket(addr) => AddSocket(s.back, addr)
      case RegisteringBack(addr) => RegisterBack(s.back, s.loop.contextId, Some(addr))
      case Retiring(addr) => Retired(s.back, addr)
      case ForgettingBack(id) => UnregisterBack(s.back, id)
      case _ => s.back
  }

  function Step(s: Session, a: Action): Session
  {
    if !Enabled(s, a) then s
    else match a
      case OpenSource(addr, mapped, _) => s.(forward := Opened(s.forward, addr, mapped))
      case EvictSource(addr) => s.(forward := Evicted(s.forward, addr))
      case ReadError(addr) => s.(back := ReadFailed(s.back, addr))
      case FirstAnswer(addr) => s.(back := s.back.(notices := s.back.notices + [SocketConnected(addr)]))
      case TakeFromForward =>
        s.(forward := s.forward.(notices := s.forward.notices[1..]), loop := Receive(s.loop, s.forward.notices[0]))
      case TakeFromBack =>
        s.(back := s.back.(notices := s.back.notices[1..]), loop := Receive(s.loop, s.back.notices[0]))
      case LoopGets(n) => s.(loop := Receive(s.loop, n))
      case LoopCalls(sent) => Session(ForwardServes(s), BackServes(s), Call(s.loop, AnswerTo(s, sent)))
      case ForwardExits => s.(forward := QuicToUdp(false, {}, map[], s.forward.notices))
      case BackExits => s.(back := UdpToQuic(false, multiset{}, {}, map[], None, s.back.notices))
  }

  function Run(webRtc: bool, actions: seq<Action>): Session
    decreases |actions|
  {
    if actions == [] then Fresh(webRtc) else Step(Run(webRtc, actions[..|actions| - 1]), actions[|actions| - 1])
  }

  /** The loop of a session is the loop of `ContextIds`: every run of the session is
      one of its runs, so what is proved about ids and calls there holds here. */
  lemma {:induction false} LoopOfASession(webRtc: bool, actions: seq<Action>) returns (events: seq<Event>)
    ensures Run(webRtc, actions).loop == ContextIds.Run(webRtc, events)
    decreases |actions|
  {
    if actions == [] {
      events := [];
    } else {
      var s := Run(webRtc, actions[..|actions| - 1]);
      events := LoopOfASession(webRtc, actions[..|actions| - 1]);
      var t := Run(webRtc, actions);
      if t.loop != s.loop {
        var e := EventOf(s, actions[|actions| - 1]);
        assert (events + [e])[..|events|] == events;
        events := events + [e];
      }
    }
  }

  function EventOf(s: Session, a: Action): (e: Event)
    requires Step(s, a).loop != s.loop
    ensures ContextIds.Step(s.loop, e) == Step(s, a).loop
  {
    if a.TakeFromForward? then Got(s.forward.notices[0])
    else if a.TakeFromBack? then Got(s.back.notices[0])
    else if a.LoopGets? then Got(a.notice)
    else Answered(AnswerTo(s, a.sent))
  }

  /** The answer of the first call a step of the loop logs. */
  predicate Granted(a: Act)
  {
    match a
    case Invalidated(_) => true
    case Told(_) => true
    case _ => a.ok
  }

  /** Every call is granted exactly while the worker it goes to is there; a notice about
      a socket, exactly if the forwarding side has it; and what goes to the proxy, if
      that can be sent. */
  lemma CallsAreGrantedByTheirWorker(webRtc: bool, actions: seq<Action>, sent: bool)
    requires Enabled(Run(webRtc, actions), LoopCalls(sent))
    ensures var s := Run(webRtc, actions);
            var log := Step(s, LoopCalls(sent)).loop.log;
            s.loop.log < log &&
            var a := log[|s.loop.log|];
            Granted(a) <==>
              if a.RegisterStream? || a.RegisterQuicToUdp? || a.UnregisterQuicToUdp? then s.forward.up
              else if a.StartReader? || a.RegisterSocket? || a.RegisterUdpToQuic? || a.UnregisterUdpToQuic? || a.Retire? then
                s.back.up
              else if a.NotifyConnected? || a.NotifyDisconnected? then a.remote in s.forward.sockets
              else sent
  {
    var events := LoopOfASession(webRtc, actions);
    CallsAreWellOrdered(webRtc, events);
    hide Run, ContextIds.Run, WellOrdered, ForwardServes, BackServes;
    AnswersByCall(Run(webRtc, actions), sent);
  }

  lemma AnswersByCall(s: Session, sent: bool)
    requires s.loop.doing != Waiting && s.loop.doing != Stopped
    requires s.loop.doing.SettingUp? ==> s.loop.doing.step < |SETUP|
    ensures var log := Call(s.loop, AnswerTo(s, sent)).log;
            s.loop.log < log &&
            var a := log[|s.loop.log|];
            Granted(a) <==>
              if a.RegisterStream? || a.RegisterQuicToUdp? || a.UnregisterQuicToUdp? then s.forward.up
              else if a.StartReader? || a.RegisterSocket? || a.RegisterUdpToQuic? || a.UnregisterUdpToQuic? || a.Retire? then
                s.back.up
              else if a.NotifyConnected? || a.NotifyDisconnected? then a.remote in s.forward.sockets
              else sent
  {
    if s.loop.doing.SettingUp? {
      SetupByWorker(s, sent);
    }
  }

  lemma SetupByWorker(s: Session, sent: bool)
    requires s.loop.doing.SettingUp? && s.loop.doing.step < |SETUP|
    ensures var ok := AnswerTo(s, sent);
            && Call(s.loop, ok).log[|s.loop.log|] == SetupCall(s.loop.doing.step, ok)
            && |Call(s.loop, ok).log| > |s.loop.log|
  {
    assert forall k | 0 <= k < |SETUP| :: SETUP[k] == SetupCall(k, true);
  }

  /** What the workers' own steps come to: who gets a socket, who loses it and what goes
      with it; and that a worker that exits takes its tables along, for good. */
  lemma WhatTheWorkersDo(s: Session, addr: SocketAddr, mapped: SocketAddr, id: U64, a: Action)
    ensures var known := id in s.forward.ids && (s.forward.ids[id] == None || s.forward.ids[id] == Some(addr));
            var t := Step(s, OpenSource(addr, mapped, id));
            if known && addr !in s.forward.sockets then
              t == s.(forward := s.forward.(sockets := s.forward.sockets + {addr},
                                            notices := s.forward.notices + [NewSocket(addr, mapped)]))
            else t == s
    ensures addr in s.forward.sockets ==>
              var f := Step(s, EvictSource(addr)).forward;
              && addr !in f.sockets && f.notices == s.forward.notices + [RetireSocket(addr)]
              && (forall i :: i in f.ids <==> i in s.forward.ids && s.forward.ids[i] != Some(addr))
              && (forall i | i in f.ids :: f.ids[i] == s.forward.ids[i])
    ensures s.back.up && addr in s.back.reading ==>
              var b := Step(s, ReadError(addr)).back;
              && addr !in b.keys && addr !in b.ids && b.ids == s.back.ids - {addr}
              && b.notices == s.back.notices + (if addr in s.back.ids
                                                then [SocketDisconnected(addr), InvalidatedContextId(s.back.ids[addr])]
                                                else [SocketDisconnected(addr)])
    ensures s.loop.webRtc && s.back.up && addr in s.back.reading ==>
              Step(s, FirstAnswer(addr)).back == s.back.(notices := s.back.notices + [SocketConnected(addr)])
    ensures var t := Step(s, ForwardExits);
            !t.forward.up && (s.forward.up ==> t.forward.ids == map[] && t.forward.sockets == {}) && t.back == s.back
    ensures var t := Step(s, BackExits);
            !t.back.up && (s.back.up ==> t.back.ids == map[] && t.back.uncompressed.None?) && t.forward == s.forward
    ensures (!s.forward.up ==> !Step(s, a).forward.up) && (!s.back.up ==> !Step(s, a).back.up)
  {
    hide Do;
    UpStaysBehind(s, a);
  }

  /** A waiting loop takes the oldest notice of either worker, a CLOSE from the proxy, or
      what ends it, and each as its own machine does. */
  lemma WhatTheLoopTakes(s: Session, id: U64, end: Notice)
    requires s.loop.doing == Waiting
    requires end.NoticesGone? || end.BodyFailed? || end.BodyEnded? || end.Shutdown?
    ensures s.forward.notices != [] ==>
              var t := Step(s, TakeFromForward);
              && t.loop == ContextIds.Step(s.loop, Got(s.forward.notices[0]))
              && t.forward == s.forward.(notices := s.forward.notices[1..]) && t.back == s.back
    ensures s.back.notices != [] ==>
              var t := Step(s, TakeFromBack);
              && t.loop == ContextIds.Step(s.loop, Got(s.back.notices[0]))
              && t.back == s.back.(notices := s.back.notices[1..]) && t.forward == s.forward
    ensures Step(s, LoopGets(CloseCapsule(id))) == s.(loop := ContextIds.Step(s.loop, Got(CloseCapsule(id))))
    ensures Step(s, LoopGets(end)) == s.(loop := ContextIds.Step(s.loop, Got(end)))
  {
    hide Receive;
  }

  /** The reader on its own: one socket more is read and can be found, one fewer when it
      is retired; and an id goes from every place it is in. */
  lemma WhatTheReaderDoes(w: UdpToQuic, addr: SocketAddr, other: SocketAddr, id: U64)
    requires other != addr
    ensures var v := AddSocket(w, addr);
            v.reading[addr] == w.reading[addr] + 1 && v.reading[other] == w.reading[other] && v.keys == w.keys + {addr}
    ensures var v := Retired(w, addr);
            && addr !in v.keys && addr !in v.ids && v.ids == w.ids - {addr} && v.notices == w.notices
            && v.reading[other] == w.reading[other]
            && v.reading[addr] == (if addr in w.keys && w.reading[addr] > 0 then w.reading[addr] - 1 else w.reading[addr])
    ensures var v := UnregisterBack(w, id);
            && (forall a :: a in v.ids <==> a in w.ids && w.ids[a] != id)
            && (forall a | a in v.ids :: v.ids[a] == w.ids[a])
            && v.uncompressed == (if w.uncompressed == Some(id) then None else w.uncompressed)
  {}

  /** Over any run the reader reads what it can find; so an eviction or a failure leaves
      nothing of a source read that was registered once. */
  lemma {:induction false} WhatIsFoundIsRead(webRtc: bool, actions: seq<Action>, addr: SocketAddr)
    ensures var b := Run(webRtc, actions).back;
            addr in b.keys ==> b.reading[addr] > 0
    decreases |actions|
  {
    hide Do;
    if actions != [] {
      WhatIsFoundIsRead(webRtc, actions[..|actions| - 1], addr);
    }
  }

  // ----- What every step keeps -----

  /** The new id has been handed out but neither table has it both ways yet. */
  predicate Allocating(l: Loop)
  {
    l.doing.RegisteringForward? || l.doing.RegisteringBack?
  }

  /** The address is on its way to being dropped from the table back. */
  predicate RetireComing(s: Session, addr: SocketAddr)
  {
    RetireSocket(addr) in s.forward.notices || s.loop.doing == Retiring(addr)
  }

  /** The counter has not reached its end. */
  predicate Unsaturated(s: Session)
  {
    s.loop.contextId < 0xFFFF_FFFF_FFFF_FFFF
  }

  ghost predicate ForwardIdsFine(s: Session)
  {
    && (forall id | id in s.forward.ids ::
          && 1 <= id <= s.loop.contextId
          && (s.loop.doing.RegisteringForward? ==> id < s.loop.contextId)
          && (s.forward.ids[id].None? <==> id == 1))
    && 1 <= s.loop.contextId
    && (s.loop.doing.SettingUp? ==> s.loop.contextId == 1 && (s.loop.doing.step <= 1 ==> s.forward.ids == map[]))
    && (Allocating(s.loop) ==> s.loop.contextId >= 2)
  }

  ghost predicate BackIdsFine(s: Session)
  {
    && (forall a | a in s.back.ids ::
          2 <= s.back.ids[a] <= s.loop.contextId && (Allocating(s.loop) ==> s.back.ids[a] < s.loop.contextId))
    && (forall a, b | a in s.back.ids && b in s.back.ids && s.back.ids[a] == s.back.ids[b] :: a == b)
  }

  /** An id the loop is told is gone is in the table back no longer. */
  ghost predicate GoneIdsFine(s: Session)
  {
    && (forall id | InvalidatedContextId(id) in s.back.notices :: GoneFromBack(s, id))
    && (s.loop.doing.Unregistering? ==> GoneFromBack(s, s.loop.doing.id))
    && (s.loop.doing.ForgettingForward? ==> NotBack(s, s.loop.doing.id))
    && (forall n | n in s.forward.notices :: n.NewSocket? || n.RetireSocket?)
    && (forall n | n in s.back.notices :: n.SocketConnected? || n.SocketDisconnected? || n.InvalidatedContextId?)
  }

  ghost predicate GoneFromBack(s: Session, id: U64)
  {
    2 <= id <= s.loop.contextId && (Allocating(s.loop) ==> id < s.loop.contextId) && NotBack(s, id)
  }

  ghost predicate NotBack(s: Session, id: U64)
  {
    forall a | a in s.back.ids :: s.back.ids[a] != id
  }

  /** A worker that has exited has taken its table along. */
  ghost predicate DownIsEmpty(s: Session)
  {
    && (!s.forward.up ==> s.forward.ids == map[] && s.forward.sockets == {})
    && (!s.back.up ==> s.back.ids == map[] && s.back.uncompressed.None?)
  }

  /** An id the table back uses for an address is known on the way forward for that
      address, or the address is about to be dropped. */
  ghost predicate BackIsKnown(s: Session)
  {
    && (forall a | a in s.back.ids && s.back.ids[a] in s.forward.ids :: s.forward.ids[s.back.ids[a]] == Some(a))
    && (s.loop.doing.RegisteringBack? && s.loop.contextId in s.forward.ids ==>
          s.forward.ids[s.loop.contextId] == Some(s.loop.doing.addr))
    && (s.forward.up ==>
          && (forall a | a in s.back.ids :: s.back.ids[a] in s.forward.ids || RetireComing(s, a))
          && (s.loop.doing.RegisteringBack? ==>
                s.loop.contextId in s.forward.ids || RetireComing(s, s.loop.doing.addr)))
  }

  ghost predicate Inv(s: Session)
  {
    DownIsEmpty(s) && ForwardIdsFine(s) && BackIdsFine(s) && GoneIdsFine(s) && BackIsKnown(s)
  }

  lemma StepKeepsDown(s: Session, a: Action)
    requires DownIsEmpty(s)
    ensures DownIsEmpty(Step(s, a))
  {}

  lemma OthersKeepForwardIds(s: Session, a: Action)
    requires Inv(s) && !a.LoopCalls?
    ensures ForwardIdsFine(Step(s, a))
  {
    hide Do, BackIdsFine, BackIsKnown, ReadFailed;
  }

  lemma CallKeepsForwardIds(s: Session, sent: bool)
    requires Inv(s) && Unsaturated(Step(s, LoopCalls(sent)))
    ensures ForwardIdsFine(Step(s, LoopCalls(sent)))
  {
    hide Do, BackIdsFine, BackIsKnown, BackServes;
  }

  lemma OthersKeepBackIds(s: Session, a: Action)
    requires Inv(s) && !a.LoopCalls?
    ensures BackIdsFine(Step(s, a))
  {
    hide Do, BackIsKnown, Without, ForwardIdsFine;
  }

  lemma OthersKeepGoneIds(s: Session, a: Action)
    requires Inv(s) && !a.LoopCalls?
    ensures GoneIdsFine(Step(s, a))
  {
    hide Inv, GoneIdsFine, Step;
    if a.ReadError? {
      ReadErrorKeepsGoneIds(s, a);
    } else if a.TakeFromForward? || a.TakeFromBack? || a.LoopGets? {
      TakingKeepsGoneIds(s, a);
    } else {
      ForwardKeepsGoneIds(s, a);
    }
  }

  lemma ReadErrorKeepsGoneIds(s: Session, a: Action)
    requires Inv(s) && a.ReadError?
    ensures GoneIdsFine(Step(s, a))
  {
    hide BackIsKnown, ForwardIdsFine, StopReading;
  }

  lemma TakingKeepsGoneIds(s: Session, a: Action)
    requires Inv(s) && (a.TakeFromForward? || a.TakeFromBack? || a.LoopGets?)
    ensures GoneIdsFine(Step(s, a))
  {
    hide Do, BackIsKnown, BackIdsFine, ForwardIdsFine;
  }

  lemma ForwardKeepsGoneIds(s: Session, a: Action)
    requires Inv(s) && !a.LoopCalls? && !a.ReadError? && !a.TakeFromForward? && !a.TakeFromBack? && !a.LoopGets?
    ensures GoneIdsFine(Step(s, a))
  {
    hide BackIsKnown, BackIdsFine, ForwardIdsFine, Without;
  }

  /** The calls of a new socket, and before them those of the setup. */
  predicate AddsASource(doing: Doing)
  {
    doing.AddingSocket? || doing.RegisteringForward? || doing.RegisteringBack? || doing.Announcing?
    || doing.SendingMapped? || doing.SettingUp?
  }

  lemma AddingKeepsBackIds(s: Session, sent: bool)
    requires Inv(s) && AddsASource(s.loop.doing) && Unsaturated(Step(s, LoopCalls(sent)))
    ensures BackIdsFine(Step(s, LoopCalls(sent)))
  {
    hide Do, BackIsKnown, StopReading, GoneIdsFine, AddSocket, Retired, UnregisterBack, ForwardServes;
  }

  lemma DroppingKeepsBackIds(s: Session, sent: bool)
    requires Inv(s) && !AddsASource(s.loop.doing)
    ensures BackIdsFine(Step(s, LoopCalls(sent)))
  {
    hide Do, BackIsKnown, StopReading, GoneIdsFine, AddSocket, ForwardIdsFine, RegisterBack, ForwardServes;
  }

  lemma AddingKeepsGoneIds(s: Session, sent: bool)
    requires Inv(s) && AddsASource(s.loop.doing) && Unsaturated(Step(s, LoopCalls(sent)))
    ensures GoneIdsFine(Step(s, LoopCalls(sent)))
  {
    hide Do, BackIsKnown, StopReading, AddSocket, Retired, UnregisterBack, ForwardIdsFine;
  }

  lemma DroppingKeepsGoneIds(s: Session, sent: bool)
    requires Inv(s) && !AddsASource(s.loop.doing)
    ensures GoneIdsFine(Step(s, LoopCalls(sent)))
  {
    hide Do, BackIsKnown, StopReading, AddSocket, RegisterBack, ForwardIdsFine;
  }

  lemma OthersKeepBackKnown(s: Session, a: Action)
    requires Inv(s) && !a.LoopCalls?
    ensures BackIsKnown(Step(s, a))
  {
    hide Do, StopReading;
  }

  lemma AddingKeepsBackKnown(s: Session, sent: bool)
    requires Inv(s) && AddsASource(s.loop.doing) && Unsaturated(Step(s, LoopCalls(sent)))
    ensures BackIsKnown(Step(s, LoopCalls(sent)))
  {
    hide Do, StopReading, AddSocket, Retired, UnregisterBack, Unregister, GoneIdsFine;
  }

  lemma DroppingKeepsBackKnown(s: Session, sent: bool)
    requires Inv(s) && !AddsASource(s.loop.doing)
    ensures BackIsKnown(Step(s, LoopCalls(sent)))
  {
    hide Do, StopReading, AddSocket, RegisterBack, Register, ForwardIdsFine;
  }

  lemma FreshKeeps(webRtc: bool)
    ensures Inv(Fresh(webRtc)) && Uncompressed(Fresh(webRtc))
  {}

  lemma StepKeepsInv(s: Session, a: Action)
    requires Inv(s) && Unsaturated(Step(s, a))
    ensures Inv(Step(s, a))
  {
    hide DownIsEmpty, ForwardIdsFine, BackIdsFine, GoneIdsFine, BackIsKnown, Step;
    StepKeepsDown(s, a);
    if a.LoopCalls? {
      CallKeepsForwardIds(s, a.sent);
    }
    if !a.LoopCalls? {
      OthersKeepForwardIds(s, a);
      OthersKeepBackIds(s, a);
      OthersKeepGoneIds(s, a);
      OthersKeepBackKnown(s, a);
    } else if AddsASource(s.loop.doing) {
      AddingKeepsBackIds(s, a.sent);
      AddingKeepsGoneIds(s, a.sent);
      AddingKeepsBackKnown(s, a.sent);
    } else {
      DroppingKeepsBackIds(s, a.sent);
      DroppingKeepsGoneIds(s, a.sent);
      DroppingKeepsBackKnown(s, a.sent);
    }
  }

  lemma CounterGrows(s: Session, a: Action)
    ensures s.loop.contextId <= Step(s, a).loop.contextId
  {
    hide Do;
  }

  lemma {:induction false} RunsKeepInv(webRtc: bool, actions: seq<Action>)
    requires Unsaturated(Run(webRtc, actions))
    ensures Inv(Run(webRtc, actions)) && Uncompressed(Run(webRtc, actions))
    decreases |actions|
  {
    hide Inv, Step, Uncompressed;
    if actions == [] {
      FreshKeeps(webRtc);
    } else {
      var s := Run(webRtc, actions[..|actions| - 1]);
      CounterGrows(s, actions[|actions| - 1]);
      RunsKeepInv(webRtc, actions[..|actions| - 1]);
      StepKeepsInv(s, actions[|actions| - 1]);
      StepKeepsUncompressed(s, actions[|actions| - 1]);
    }
  }

  /** The id without an address is held on both sides, but while it is set up or
      being forgotten. */
  ghost predicate Uncompressed(s: Session)
  {
    && (s.back.uncompressed.None? || s.back.uncompressed == Some(1))
    && (s.forward.up && s.back.up ==>
          match s.loop.doing
          case SettingUp(k) => (k >= 2 ==> 1 in s.forward.ids) && (k <= 3 ==> s.back.uncompressed.None?)
                               && (k >= 4 ==> s.back.uncompressed == Some(1))
          case ForgettingForward(id) =>
            if id == 1 then s.back.uncompressed.None? else (1 in s.forward.ids <==> s.back.uncompressed == Some(1))
          case _ => (1 in s.forward.ids <==> s.back.uncompressed == Some(1)))
  }

  lemma StepKeepsUncompressed(s: Session, a: Action)
    requires Inv(s) && Uncompressed(s) && Unsaturated(Step(s, a))
    ensures Uncompressed(Step(s, a))
  {
    hide Do, StopReading, AddSocket, BackIdsFine, BackIsKnown;
  }

  // ----- What the tables say to each other -----

  /** Over every interleaving, with any call failing: whatever id the table back would
      put on a packet of `addr`, the table forward takes it for that address and no
      other; the only exception is an address whose retirement is on its way. */
  lemma PacketsComeBackToTheirSource(webRtc: bool, actions: seq<Action>, addr: SocketAddr)
    requires var s := Run(webRtc, actions);
             Unsaturated(s) && s.forward.up && addr in s.back.ids
    ensures var s := Run(webRtc, actions);
            var id := s.back.ids[addr];
            && (if id in s.forward.ids then s.forward.ids[id] == Some(addr) else RetireComing(s, addr))
            && (forall other | other in s.back.ids && s.back.ids[other] == id :: other == addr)
  {
    hide Step;
    RunsKeepInv(webRtc, actions);
  }

  /** Nothing is in hand and nothing is queued. */
  predicate AtRest(s: Session)
  {
    s.loop.doing == Waiting && s.forward.notices == [] && s.back.notices == []
  }

  /** Both workers hold the same ids for the same addresses. */
  ghost predicate Agree(s: Session)
  {
    && (forall id, addr :: Matched(s, id, addr) <==> addr in s.back.ids && s.back.ids[addr] == id)
    && (forall id :: id in s.forward.ids && s.forward.ids[id].None? <==> s.back.uncompressed == Some(id))
  }

  predicate Matched(s: Session, id: U64, addr: SocketAddr)
  {
    id in s.forward.ids && s.forward.ids[id] == Some(addr)
  }

  /** The step on which an id is lost to the table back alone: the loop passes on a
      retirement of, or a second registration for, an address whose id the table
      forward holds. */
  ghost predicate Strands(s: Session, a: Action, id: U64)
  {
    && a.LoopCalls? && s.back.up && id in s.forward.ids
    && (s.loop.doing.Retiring? || s.loop.doing.RegisteringBack?)
    && s.loop.doing.addr in s.back.ids && s.back.ids[s.loop.doing.addr] == id
  }

  /** Some step of the run stranded `id`, and it has not been removed since. */
  ghost predicate Stranded(webRtc: bool, actions: seq<Action>, id: U64)
    decreases |actions|
  {
    actions != [] &&
    var front, last := actions[..|actions| - 1], actions[|actions| - 1];
    || Strands(Run(webRtc, front), last, id)
    || (Stranded(webRtc, front, id) && id in Run(webRtc, actions).forward.ids)
  }

  /** An id of the table forward that the table back has, is about to have, or has
      given up and told of. */
  ghost predicate Accounted(s: Session, id: U64)
  {
    id in s.forward.ids && s.forward.ids[id].Some? ==>
      || (s.forward.ids[id].value in s.back.ids && s.back.ids[s.forward.ids[id].value] == id)
      || (s.loop.doing.RegisteringBack? && id == s.loop.contextId)
      || InvalidatedContextId(id) in s.back.notices
      || s.loop.doing == Unregistering(id) || s.loop.doing == ForgettingForward(id)
  }

  /** An id only the table forward has. */
  ghost predicate Alone(s: Session, id: U64)
  {
    && id in s.forward.ids && s.forward.ids[id].Some?
    && NotBack(s, id) && !(Allocating(s.loop) && id == s.loop.contextId)
  }

  lemma StepAccounts(s: Session, a: Action, id: U64)
    requires Inv(s) && Unsaturated(Step(s, a)) && Step(s, a).forward.up && Step(s, a).back.up
    requires Accounted(s, id)
    ensures Accounted(Step(s, a), id) || Strands(s, a, id)
  {
    hide Do, StopReading, AddSocket, BackIsKnown, GoneIdsFine;
    if a.LoopCalls? {
      if AddsASource(s.loop.doing) {
        AddingAccounts(s, a.sent, id);
      } else {
        DroppingAccounts(s, a.sent, id);
      }
    }
  }

  lemma AddingAccounts(s: Session, sent: bool, id: U64)
    requires Inv(s) && Unsaturated(Step(s, LoopCalls(sent))) && s.forward.up && s.back.up
    requires Accounted(s, id) && AddsASource(s.loop.doing)
    ensures Accounted(Step(s, LoopCalls(sent)), id) || Strands(s, LoopCalls(sent), id)
  {
    hide Do, StopReading, AddSocket, Retired, UnregisterBack, Unregister;
  }

  lemma DroppingAccounts(s: Session, sent: bool, id: U64)
    requires Inv(s) && s.forward.up && s.back.up
    requires Accounted(s, id) && !AddsASource(s.loop.doing)
    ensures Accounted(Step(s, LoopCalls(sent)), id) || Strands(s, LoopCalls(sent), id)
  {
    hide Do, StopReading, AddSocket, RegisterBack, Register, ForwardIdsFine;
  }

  lemma StepLeavesAlone(s: Session, a: Action, id: U64)
    requires Inv(s) && Unsaturated(Step(s, a))
    requires Alone(s, id) || Strands(s, a, id)
    ensures Alone(Step(s, a), id) || id !in Step(s, a).forward.ids
  {
    hide Do, StopReading, AddSocket, GoneIdsFine;
  }

  lemma StrandsLeavesAlone(s: Session, a: Action, id: U64)
    requires Inv(s) && Unsaturated(Step(s, a)) && Strands(s, a, id)
    ensures id in Step(s, a).forward.ids
  {
    hide Do, StopReading, AddSocket, GoneIdsFine;
  }

  /** Exits are for good. */
  lemma UpStaysBehind(s: Session, a: Action)
    ensures Step(s, a).forward.up ==> s.forward.up
    ensures Step(s, a).back.up ==> s.back.up
  {
    hide Do;
  }

  lemma {:induction false} EveryIdIsAccountedFor(webRtc: bool, actions: seq<Action>, id: U64)
    requires var s := Run(webRtc, actions);
             Unsaturated(s) && s.forward.up && s.back.up
    ensures Accounted(Run(webRtc, actions), id) || Stranded(webRtc, actions, id)
    decreases |actions|
  {
    hide Step, Accounted, Strands, Inv;
    if actions == [] {
      NothingYet(webRtc, id);
    } else {
      var front, last := actions[..|actions| - 1], actions[|actions| - 1];
      var s := Run(webRtc, front);
      CounterGrows(s, last);
      UpStaysBehind(s, last);
      EveryIdIsAccountedFor(webRtc, front, id);
      RunsKeepInv(webRtc, front);
      if Accounted(s, id) {
        StepAccounts(s, last, id);
      } else if id !in Run(webRtc, actions).forward.ids {
        GoneIsAccounted(Run(webRtc, actions), id);
      }
    }
  }

  lemma NothingYet(webRtc: bool, id: U64)
    ensures Accounted(Fresh(webRtc), id)
  {}

  lemma GoneIsAccounted(s: Session, id: U64)
    requires id !in s.forward.ids
    ensures Accounted(s, id)
  {}

  lemma {:induction false} StrandedIsAlone(webRtc: bool, actions: seq<Action>, id: U64)
    requires Unsaturated(Run(webRtc, actions)) && Stranded(webRtc, actions, id)
    ensures Alone(Run(webRtc, actions), id)
    decreases |actions|
  {
    hide Step, Alone, Strands, Inv;
    var front, last := actions[..|actions| - 1], actions[|actions| - 1];
    var s := Run(webRtc, front);
    CounterGrows(s, last);
    RunsKeepInv(webRtc, front);
    if Strands(s, last, id) {
      StrandsLeavesAlone(s, last, id);
    } else {
      StrandedIsAlone(webRtc, front, id);
    }
    StepLeavesAlone(s, last, id);
  }

  ghost predicate NoneStranded(webRtc: bool, actions: seq<Action>)
  {
    forall id :: !Stranded(webRtc, actions, id)
  }

  /** When nothing is in hand or queued, the two tables agree exactly when no id is
      stranded: when no step passed a retirement or a second registration to the
      reader for an address whose id the other side still held, or every id so lost
      has since gone with an eviction of its address or a CLOSE. */
  lemma TablesAgreeExactly(webRtc: bool, actions: seq<Action>)
    requires var s := Run(webRtc, actions);
             Unsaturated(s) && s.forward.up && s.back.up && AtRest(s)
    ensures Agree(Run(webRtc, actions)) <==> NoneStranded(webRtc, actions)
  {
    hide Step, Strands, Accounted, Inv, Uncompressed, Agree, Alone;
    var s := Run(webRtc, actions);
    RunsKeepInv(webRtc, actions);
    if Agree(s) {
      forall id
        ensures !Stranded(webRtc, actions, id)
      {
        AgreedIsNotAlone(s, id);
        if Stranded(webRtc, actions, id) {
          StrandedIsAlone(webRtc, actions, id);
        }
      }
    }
    if NoneStranded(webRtc, actions) {
      forall id
        ensures Accounted(s, id)
      {
        EveryIdIsAccountedFor(webRtc, actions, id);
      }
      AccountedAgrees(s);
    }
  }

  lemma AgreedIsNotAlone(s: Session, id: U64)
    requires Agree(s)
    ensures !Alone(s, id)
  {
    if Alone(s, id) {
      assert Matched(s, id, s.forward.ids[id].value);
    }
  }

  lemma AccountedAgrees(s: Session)
    requires Inv(s) && Uncompressed(s) && s.forward.up && s.back.up && AtRest(s)
    requires forall id :: Accounted(s, id)
    ensures Agree(s)
  {
    forall id, addr
      ensures Matched(s, id, addr) <==> addr in s.back.ids && s.back.ids[addr] == id
    {
      assert Accounted(s, id);
      assert !RetireComing(s, addr);
    }
  }

  // ----- Runs that strand an id -----

  /** The one kind of trouble a run may have. */
  datatype Trouble = Evictions | ReadErrors

  /** Every call is granted and nobody leaves. */
  predicate SmoothStep(a: Action, but: Trouble)
  {
    && !a.LoopGets? && !a.ForwardExits? && !a.BackExits? && (a.LoopCalls? ==> a.sent)
    && (a.EvictSource? ==> but == Evictions) && (a.ReadError? ==> but == ReadErrors)
  }

  ghost predicate Smooth(actions: seq<Action>, but: Trouble)
  {
    forall a | a in actions :: SmoothStep(a, but)
  }

  /** A smooth run so far, and where it has come to. */
  datatype Trip = Trip(but: Trouble, actions: seq<Action>, at: Session)

  ghost predicate Made(t: Trip)
  {
    Smooth(t.actions, t.but) && t.at == Run(false, t.actions)
  }

  lemma Goes(t: Trip, a: Action) returns (next: Trip)
    requires Made(t) && SmoothStep(a, t.but)
    ensures Made(next) && next.but == t.but && next.at == Step(t.at, a)
  {
    next := Trip(t.but, t.actions + [a], Step(t.at, a));
    assert next.actions[..|t.actions|] == t.actions;
  }

  lemma SetUp(but: Trouble) returns (t: Trip)
    ensures Made(t) && t.but == but
    ensures t.at.forward == QuicToUdp(true, {}, map[1 := None], [])
    ensures t.at.back == UdpToQuic(true, multiset{}, {}, map[], Some(1), [])
    ensures t.at.loop.doing == Waiting && t.at.loop.contextId == 1 && !t.at.loop.webRtc
  {
    hide Made, Step, Fresh;
    t := Trip(but, [], Fresh(false));
    FreshIsMade(but);
    for k := 0 to |SETUP|
      invariant Made(t) && t.but == but
      invariant t.at.forward == QuicToUdp(true, {}, if k <= 1 then map[] else map[1 := None], [])
      invariant t.at.back == UdpToQuic(true, multiset{}, {}, map[], if k <= 3 then None else Some(1), [])
      invariant t.at.loop.doing == if k < |SETUP| then SettingUp(k) else Waiting
      invariant t.at.loop.contextId == 1 && !t.at.loop.webRtc
    {
      SetsUp(t.at, k);
      t := Goes(t, LoopCalls(true));
    }
  }

  lemma FreshIsMade(but: Trouble)
    ensures Made(Trip(but, [], Fresh(false)))
    ensures var s := Fresh(false);
            && s.forward == QuicToUdp(true, {}, map[], []) && s.back == UdpToQuic(true, multiset{}, {}, map[], None, [])
            && s.loop.doing == SettingUp(0) && s.loop.contextId == 1 && !s.loop.webRtc
  {}

  lemma SetsUp(s: Session, k: nat)
    requires k < |SETUP| && s.loop.doing == SettingUp(k) && s.forward.up && s.back.up
    ensures var next := Step(s, LoopCalls(true));
            && next.forward == (if k == 1 then Register(s.forward, 1, None) else s.forward)
            && next.back == (if k == 3 then RegisterBack(s.back, 1, None) else s.back)
            && next.loop.doing == (if k + 1 < |SETUP| then SettingUp(k + 1) else Waiting)
            && next.loop.contextId == s.loop.contextId && next.loop.webRtc == s.loop.webRtc
  {
    hide Do;
  }

  ghost predicate Healthy(s: Session)
  {
    s.forward.up && s.back.up && Unsaturated(s) && !s.loop.webRtc
  }

  lemma AddsNewSocket(t: Trip, addr: SocketAddr, mapped: SocketAddr) returns (next: Trip)
    requires Made(t) && Healthy(t.at) && t.at.loop.doing == Waiting
    requires t.at.forward.notices != [] && t.at.forward.notices[0] == NewSocket(addr, mapped)
    ensures Made(next) && next.but == t.but
    ensures next.at.forward == t.at.forward.(notices := t.at.forward.notices[1..])
    ensures next.at.back == AddSocket(t.at.back, addr)
    ensures next.at.loop.doing == RegisteringForward(addr)
    ensures next.at.loop.contextId == t.at.loop.contextId + 1 && !next.at.loop.webRtc
  {
    hide Do, AddSocket, Made;
    next := Goes(t, TakeFromForward);
    next := Goes(next, LoopCalls(true));
  }

  lemma RegistersBothWays(t: Trip, addr: SocketAddr) returns (next: Trip)
    requires Made(t) && Healthy(t.at) && t.at.loop.doing == RegisteringForward(addr)
    ensures Made(next) && next.but == t.but
    ensures next.at.forward == Register(t.at.forward, t.at.loop.contextId, Some(addr))
    ensures next.at.back == RegisterBack(t.at.back, t.at.loop.contextId, Some(addr))
    ensures next.at.loop.doing == Waiting
    ensures next.at.loop.contextId == t.at.loop.contextId && !next.at.loop.webRtc
  {
    hide Do, Made;
    next := Goes(t, LoopCalls(true));
    next := Goes(next, LoopCalls(true));
    next := Goes(next, LoopCalls(true));
  }

  /** A source evicted while the notice of its socket is still queued: the eviction
      finds no id to drop, the loop then registers one both ways, and the retirement
      behind it takes that id from the reader alone.  Every call was granted. */
  lemma EvictionOvertakesTheSocket(addr: SocketAddr, mapped: SocketAddr) returns (actions: seq<Action>)
    ensures Smooth(actions, Evictions)
    ensures var s := Run(false, actions);
            && AtRest(s) && Healthy(s)
            && s.forward.ids == map[1 := None, 2 := Some(addr)] && s.back.ids == map[] && !Agree(s)
  {
    hide Step, Run, Smooth;
    var t := SetUp(Evictions);
    t := OpensAndEvicts(t, addr, mapped);
    t := AddsNewSocket(t, addr, mapped);
    t := RegistersBothWays(t, addr);
    t := RetiresSource(t, addr);
    assert Matched(t.at, 2, addr);
    actions := t.actions;
  }

  lemma OpensAndEvicts(t: Trip, addr: SocketAddr, mapped: SocketAddr) returns (next: Trip)
    requires Made(t) && t.but == Evictions && t.at.forward == QuicToUdp(true, {}, map[1 := None], [])
    ensures Made(next) && next.but == t.but && next.at.back == t.at.back && next.at.loop == t.at.loop
    ensures next.at.forward == QuicToUdp(true, {}, map[1 := None], [NewSocket(addr, mapped), RetireSocket(addr)])
  {
    hide Made;
    next := Goes(t, OpenSource(addr, mapped, 1));
    next := Goes(next, EvictSource(addr));
  }

  lemma RetiresSource(t: Trip, addr: SocketAddr) returns (next: Trip)
    requires Made(t) && Healthy(t.at) && t.at.loop.doing == Waiting && t.at.forward.notices == [RetireSocket(addr)]
    ensures Made(next) && next.but == t.but && next.at.back == Retired(t.at.back, addr)
    ensures next.at.forward == t.at.forward.(notices := [])
    ensures next.at.loop.doing == Waiting
    ensures next.at.loop.contextId == t.at.loop.contextId && !next.at.loop.webRtc
  {
    hide Do, Made, Retired;
    next := Goes(t, TakeFromForward);
    next := Goes(next, LoopCalls(true));
  }

  /** Without any eviction: the socket fails between its registration and that of its
      id, so no id is reported gone; when the source is heard again a second id is
      registered over the first. */
  lemma ReadErrorOvertakesTheId(addr: SocketAddr, mapped: SocketAddr) returns (actions: seq<Action>)
    ensures Smooth(actions, ReadErrors)
    ensures var s := Run(false, actions);
            && AtRest(s) && Healthy(s)
            && s.forward.ids == map[1 := None, 2 := Some(addr), 3 := Some(addr)] && s.back.ids == map[addr := 3] && !Agree(s)
  {
    hide Step, Run, Smooth;
    var t := SetUp(ReadErrors);
    t := OpensSource(t, addr, mapped);
    t := AddsNewSocket(t, addr, mapped);
    t := FailsToRead(t, addr);
    t := RegistersBothWays(t, addr);
    t := HearsOfTheFailure(t, addr);
    t := OpensSource(t, addr, mapped);
    t := AddsNewSocket(t, addr, mapped);
    t := RegistersBothWays(t, addr);
    assert Matched(t.at, 2, addr);
    actions := t.actions;
  }

  lemma OpensSource(t: Trip, addr: SocketAddr, mapped: SocketAddr) returns (next: Trip)
    requires Made(t) && 1 in t.at.forward.ids && t.at.forward.ids[1].None? && addr !in t.at.forward.sockets
    ensures Made(next) && next.but == t.but && next.at.back == t.at.back && next.at.loop == t.at.loop
    ensures next.at.forward == Opened(t.at.forward, addr, mapped)
  {
    hide Made;
    next := Goes(t, OpenSource(addr, mapped, 1));
  }

  lemma FailsToRead(t: Trip, addr: SocketAddr) returns (next: Trip)
    requires Made(t) && t.but == ReadErrors && t.at.back.up && addr in t.at.back.reading
    ensures Made(next) && next.but == t.but && next.at.forward == t.at.forward && next.at.loop == t.at.loop
    ensures next.at.back == ReadFailed(t.at.back, addr)
  {
    hide Made;
    next := Goes(t, ReadError(addr));
  }

  lemma HearsOfTheFailure(t: Trip, addr: SocketAddr) returns (next: Trip)
    requires Made(t) && Healthy(t.at) && t.at.loop.doing == Waiting && t.at.back.notices == [SocketDisconnected(addr)]
    ensures Made(next) && next.but == t.but && next.at.back == t.at.back.(notices := [])
    ensures next.at.forward == t.at.forward.(sockets := t.at.forward.sockets - {addr})
    ensures next.at.loop.doing == Waiting
    ensures next.at.loop.contextId == t.at.loop.contextId && !next.at.loop.webRtc
  {
    hide Do, Made;
    next := Goes(t, TakeFromBack);
    next := Goes(next, LoopCalls(true));
  }

  // ----- Without trouble there is none -----

  /** No eviction, and no socket that fails. */
  ghost predicate Quiet(actions: seq<Action>)
  {
    forall a | a in actions :: !a.EvictSource? && !a.ReadError?
  }

  predicate Adding(doing: Doing, addr: SocketAddr)
  {
    doing == AddingSocket(addr) || doing == RegisteringForward(addr) || doing == RegisteringBack(addr)
    || (doing.SendingMapped? && doing.addr == addr)
  }

  ghost predicate AllDifferent(notices: seq<Notice>)
  {
    forall i, j | 0 <= i < j < |notices| && notices[i].NewSocket? && notices[j].NewSocket? :: notices[i].addr != notices[j].addr
  }

  /** Every source is announced once, and has no id before that. */
  ghost predicate AnnouncedOnce(s: Session)
  {
    && (!s.forward.up ==> s.forward.ids == map[])
    && (forall n | n in s.back.notices :: n.SocketConnected?)
    && !s.loop.doing.Retiring? && !s.loop.doing.Disconnecting?
    && (forall n | n in s.forward.notices :: n.NewSocket?)
    && AllDifferent(s.forward.notices)
    && (forall n | n in s.forward.notices ::
          (s.forward.up ==> n.addr in s.forward.sockets) && n.addr !in s.back.ids && !Adding(s.loop.doing, n.addr))
    && (forall addr | Adding(s.loop.doing, addr) :: (s.forward.up ==> addr in s.forward.sockets) && addr !in s.back.ids)
    && (forall addr | addr in s.back.ids && s.forward.up :: addr in s.forward.sockets)
  }

  lemma QuietOpen(s: Session, a: Action)
    requires AnnouncedOnce(s) && a.OpenSource?
    ensures AnnouncedOnce(Step(s, a))
  {
    hide Do;
  }

  lemma QuietTake(s: Session)
    requires AnnouncedOnce(s) && Enabled(s, TakeFromForward)
    ensures AnnouncedOnce(Step(s, TakeFromForward))
  {
    hide Do;
    var head, tail := s.forward.notices[0], s.forward.notices[1..];
    var next := Receive(s.loop, head);
    assert head in s.forward.notices;
    assert forall addr :: Adding(next.doing, addr) ==> addr == head.addr;
    forall n | n in tail
      ensures n in s.forward.notices && n.addr != head.addr
    {
      var k :| 0 <= k < |tail| && tail[k] == n;
      assert s.forward.notices[k + 1] == n;
    }
    hide Receive;
    assert Step(s, TakeFromForward) == s.(forward := s.forward.(notices := tail), loop := next);
  }

  lemma QuietEvent(s: Session, a: Action)
    requires AnnouncedOnce(s) && (a.TakeFromBack? || a.LoopGets? || a.FirstAnswer?)
    ensures AnnouncedOnce(Step(s, a))
  {
    hide Do, AllDifferent;
    if a.TakeFromBack? && s.back.notices != [] {
      assert s.back.notices[0] in s.back.notices;
    }
  }

  lemma QuietExit(s: Session, a: Action)
    requires AnnouncedOnce(s) && (a.ForwardExits? || a.BackExits?)
    ensures AnnouncedOnce(Step(s, a))
  {}

  lemma QuietAdding(s: Session, sent: bool)
    requires AnnouncedOnce(s) && AddsASource(s.loop.doing)
    ensures AnnouncedOnce(Step(s, LoopCalls(sent)))
  {
    hide Do, StopReading, AddSocket, Retired, UnregisterBack, Unregister, AllDifferent;
    var next := Call(s.loop, AnswerTo(s, sent));
    assert !next.doing.Retiring? && !next.doing.Disconnecting?;
    assert forall addr :: Adding(next.doing, addr) ==> Adding(s.loop.doing, addr);
    assert forall addr | addr in BackServes(s).ids && addr !in s.back.ids ::
        s.loop.doing == RegisteringBack(addr) && !Adding(next.doing, addr);
    hide Call, AnswerTo;
  }

  lemma QuietDropping(s: Session, sent: bool)
    requires AnnouncedOnce(s) && !AddsASource(s.loop.doing)
    ensures AnnouncedOnce(Step(s, LoopCalls(sent)))
  {
    hide Do, StopReading, AddSocket, RegisterBack, Register, Retired, AllDifferent;
  }

  lemma DisabledIsNothing(s: Session, a: Action)
    requires !Enabled(s, a)
    ensures Step(s, a) == s
  {}

  lemma QuietStrandsNothing(s: Session, a: Action)
    requires AnnouncedOnce(s)
    ensures forall id :: !Strands(s, a, id)
  {
    assert s.loop.doing.RegisteringBack? ==> Adding(s.loop.doing, s.loop.doing.addr);
  }

  lemma QuietStep(s: Session, a: Action)
    requires AnnouncedOnce(s) && !a.EvictSource? && !a.ReadError?
    ensures AnnouncedOnce(Step(s, a)) && forall id :: !Strands(s, a, id)
  {
    hide Step, AnnouncedOnce;
    QuietStrandsNothing(s, a);
    if a.OpenSource? {
      QuietOpen(s, a);
    } else if a.ForwardExits? || a.BackExits? {
      QuietExit(s, a);
    } else if a.TakeFromForward? {
      if Enabled(s, a) {
        QuietTake(s);
      } else {
        DisabledIsNothing(s, a);
      }
    } else if !a.LoopCalls? {
      QuietEvent(s, a);
    } else if AddsASource(s.loop.doing) {
      QuietAdding(s, a.sent);
    } else {
      QuietDropping(s, a.sent);
    }
  }

  lemma {:induction false} QuietRun(webRtc: bool, actions: seq<Action>)
    requires Quiet(actions)
    ensures AnnouncedOnce(Run(webRtc, actions))
    ensures forall id :: !Stranded(webRtc, actions, id)
    decreases |actions|
  {
    hide Step, AnnouncedOnce, Strands;
    if actions == [] {
      NobodyYet(webRtc);
    } else {
      var front, last := actions[..|actions| - 1], actions[|actions| - 1];
      assert forall a | a in front :: a in actions;
      QuietRun(webRtc, front);
      QuietStep(Run(webRtc, front), last);
    }
  }

  lemma NobodyYet(webRtc: bool)
    ensures AnnouncedOnce(Fresh(webRtc))
  {}

  /** As long as no source is evicted and no socket fails, whatever the proxy closes and
      whatever cannot be sent, the tables agree whenever nothing is in hand or queued. */
  lemma QuietSessionsAgree(webRtc: bool, actions: seq<Action>)
    requires Quiet(actions)
    requires var s := Run(webRtc, actions);
             Unsaturated(s) && s.forward.up && s.back.up && AtRest(s)
    ensures Agree(Run(webRtc, actions))
  {
    hide Step, Stranded, Agree;
    QuietRun(webRtc, actions);
    TablesAgreeExactly(webRtc, actions);
  }
}
