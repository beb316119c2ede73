/**
 The MASQUE event loop: how it sets itself up, hands out context ids and talks to
 the two forwarders, one call at a time.

 What a call answers is the event that follows it, so every statement holds whatever
 is answered; `Forwarders` is where the answers come from.  `log` records the calls
 and what the application was told, in order.
 */
module ContextIds {
  import opened Wrappers
  import opened VarInt
  import opened Capsules

  const U64_MAX: U64 := 0xFFFF_FFFF_FFFF_FFFF

  /** `MasqueClientEvent`, without the wording of errors. */
  datatype ClientEvent =
    | PublicAddresses
    | NewRemoteHost(remote: SocketAddr, mapped: SocketAddr)
    | SocketRegistrationFailed(remote: SocketAddr)
    | QuicToUdpRegistrationFailed(id: U64, remote: SocketAddr)
    | UdpToQuicRegistrationFailed(id: U64, remote: SocketAddr)
    | CompressionAssignSendFailed(id: U64, remote: SocketAddr)
    | NotificationChannelClosed
    | ResponseBodyReceiveError
    | ResponseBodyEnded

  datatype Act =
    | RegisterStream(ok: bool)
    | StartReader(ok: bool)
    | ReadAddresses(ok: bool)
    | SendMapped(mapped: SocketAddr, ok: bool)
    | RegisterSocket(remote: SocketAddr, ok: bool)
    | RegisterQuicToUdp(id: U64, addr: Option<SocketAddr>, ok: bool)
    | RegisterUdpToQuic(id: U64, addr: Option<SocketAddr>, ok: bool)
    | SendAssign(id: U64, addr: Option<SocketAddr>, ok: bool)
    | Invalidated(id: U64)
    | UnregisterQuicToUdp(id: U64, ok: bool)
    | UnregisterUdpToQuic(id: U64, ok: bool)
    | SendClose(id: U64, ok: bool)
    | Retire(remote: SocketAddr, ok: bool)
    | NotifyConnected(remote: SocketAddr, ok: bool)
    | NotifyDisconnected(remote: SocketAddr, ok: bool)
    | Told(event: ClientEvent)

  /** What the loop's `select!` brings. */
  datatype Notice =
    | NewSocket(addr: SocketAddr, mapped: SocketAddr)
    | RetireSocket(addr: SocketAddr)
    | SocketConnected(addr: SocketAddr)
    | SocketDisconnected(addr: SocketAddr)
    | InvalidatedContextId(gone: U64)
    | CloseCapsule(closed: U64)
    | NoticesGone
    | BodyFailed
    | BodyEnded
    | Shutdown

  /** The call whose answer is awaited. */
  datatype Doing =
    | SettingUp(step: nat)
    | Waiting
    | SendingMapped(addr: SocketAddr, mapped: SocketAddr)
    | AddingSocket(addr: SocketAddr)
    | RegisteringForward(addr: SocketAddr)
    | RegisteringBack(addr: SocketAddr)
    | Announcing(addr: SocketAddr)
    | Retiring(addr: SocketAddr)
    | Connecting(addr: SocketAddr)
    | Disconnecting(addr: SocketAddr)
    | Unregistering(id: U64)
    | Closing(id: U64)
    | ForgettingBack(id: U64)
    | ForgettingForward(id: U64)
    | Stopped

  datatype Loop = Loop(webRtc: bool, contextId: U64, doing: Doing, log: seq<Act>)

  datatype Event = Got(notice: Notice) | Answered(ok: bool)

  /** `saturating_add(1)`. */
  function Next(id: U64): U64
  {
    if id == U64_MAX then U64_MAX else id + 1
  }

  /** The calls before there is a loop, all of them granted: id 1, the uncompressed
      context, is registered both ways and announced. */
  const SETUP: seq<Act> := [
    RegisterStream(true), RegisterQuicToUdp(1, None, true), StartReader(true),
    RegisterUdpToQuic(1, None, true), SendAssign(1, None, true), ReadAddresses(true)]

  /** The `k`-th call of the setup, answered. */
  function SetupCall(k: nat, ok: bool): (a: Act)
    requires k < |SETUP|
    ensures ok ==> a == SETUP[k]
  {
    match k
    case 0 => RegisterStream(ok)
    case 1 => RegisterQuicToUdp(1, None, ok)
    case 2 => StartReader(ok)
    case 3 => RegisterUdpToQuic(1, None, ok)
    case 4 => SendAssign(1, None, ok)
    case _ => ReadAddresses(ok)
  }

  function Begin(webRtc: bool): Loop
  {
    Loop(webRtc, 1, SettingUp(0), [])
  }

  function Do(l: Loop, doing: Doing, acts: seq<Act>): (r: Loop)
    ensures r.doing == doing && r.contextId == l.contextId && r.webRtc == l.webRtc
  {
    l.(doing := doing, log := l.log + acts)
  }

  function Receive(l: Loop, n: Notice): Loop
  {
    match n
    case NewSocket(addr, mapped) =>
      if l.webRtc then Do(l, SendingMapped(addr, mapped), [])
      else Do(l, AddingSocket(addr), [Told(NewRemoteHost(addr, mapped))])
    case RetireSocket(addr) => Do(l, Retiring(addr), [])
    case SocketConnected(addr) => Do(l, Connecting(addr), [])
    case SocketDisconnected(addr) => Do(l, Disconnecting(addr), [])
    case InvalidatedContextId(id) => Do(l, Unregistering(id), [Invalidated(id)])
    case CloseCapsule(id) => Do(l, ForgettingBack(id), [])
    case NoticesGone => Do(l, Stopped, [Told(NotificationChannelClosed)])
    case BodyFailed => Do(l, Stopped, [Told(ResponseBodyReceiveError)])
    case BodyEnded => Do(l, Stopped, [Told(ResponseBodyEnded)])
    case Shutdown => Do(l, Stopped, [])
  }

  function Call(l: Loop, ok: bool): Loop
  {
    match l.doing
    case SettingUp(k) =>
      if k >= |SETUP| then l
      else if !ok then Do(l, Stopped, [SetupCall(k, false)])
      else if k + 1 < |SETUP| then Do(l, SettingUp(k + 1), [SETUP[k]])
      else Do(l, Waiting, [SETUP[k], Told(PublicAddresses)])
    case SendingMapped(addr, mapped) =>
      if ok then Do(l, AddingSocket(addr), [SendMapped(mapped, ok), Told(NewRemoteHost(addr, mapped))])
      else Do(l, Waiting, [SendMapped(mapped, ok), Told(CompressionAssignSendFailed(l.contextId, addr))])
    case AddingSocket(addr) =>
      if ok then Do(l, RegisteringForward(addr), [RegisterSocket(addr, ok)]).(contextId := Next(l.contextId))
      else Do(l, Waiting, [RegisterSocket(addr, ok), Told(SocketRegistrationFailed(addr))])
    case RegisteringForward(addr) =>
      var act := RegisterQuicToUdp(l.contextId, Some(addr), ok);
      if ok then Do(l, RegisteringBack(addr), [act])
      else Do(l, Stopped, [act, Told(QuicToUdpRegistrationFailed(l.contextId, addr))])
    case RegisteringBack(addr) =>
      var act := RegisterUdpToQuic(l.contextId, Some(addr), ok);
      if ok then Do(l, Announcing(addr), [act])
      else Do(l, Stopped, [act, Told(UdpToQuicRegistrationFailed(l.contextId, addr))])
    case Announcing(addr) =>
      var act := SendAssign(l.contextId, Some(addr), ok);
      Do(l, Waiting, if ok then [act] else [act, Told(CompressionAssignSendFailed(l.contextId, addr))])
    case Retiring(addr) => Do(l, Waiting, [Retire(addr, ok)])
    case Connecting(addr) => Do(l, Waiting, [NotifyConnected(addr, ok)])
    case Disconnecting(addr) => Do(l, Waiting, [NotifyDisconnected(addr, ok)])
    case Unregistering(id) => Do(l, Closing(id), [UnregisterQuicToUdp(id, ok)])
    case Closing(id) => Do(l, Waiting, [SendClose(id, ok)])
    case ForgettingBack(id) => Do(l, ForgettingForward(id), [UnregisterUdpToQuic(id, ok)])
    case ForgettingForward(id) => Do(l, Waiting, [UnregisterQuicToUdp(id, ok)])
    case Waiting => l
    case Stopped => l
  }

  /** A notice is taken only while the loop waits for one. */
  function Step(l: Loop, e: Event): Loop
  {
    match e
    case Got(n) => if l.doing == Waiting then Receive(l, n) else l
    case Answered(ok) => Call(l, ok)
  }

  function Run(webRtc: bool, events: seq<Event>): Loop
    decreases |events|
  {
    if events == [] then Begin(webRtc) else Step(Run(webRtc, events[..|events| - 1]), events[|events| - 1])
  }

  /** Answers to the calls one notice leads to, were they reached. */
  datatype Answers = Answers(mappedSent: bool, socket: bool, quicToUdp: bool, udpToQuic: bool, assignSent: bool)

  function Answer(l: Loop, ok: bool): Loop
  {
    Step(l, Answered(ok))
  }

  function AnswerAll(l: Loop, answers: seq<bool>): Loop
    decreases |answers|
  {
    if answers == [] then l else Answer(AnswerAll(l, answers[..|answers| - 1]), answers[|answers| - 1])
  }

  lemma {:induction false} StoppedStaysStopped(l: Loop, answers: seq<bool>, k: nat)
    requires k <= |answers| && AnswerAll(l, answers[..k]).doing == Stopped
    ensures AnswerAll(l, answers) == AnswerAll(l, answers[..k])
    decreases |answers|
  {
    if k == |answers| {
      assert answers[..k] == answers;
    } else {
      assert answers[..|answers| - 1][..k] == answers[..k];
      StoppedStaysStopped(l, answers[..|answers| - 1], k);
    }
  }

  lemma NothingAnswered(webRtc: bool, answers: seq<bool>)
    ensures AnswerAll(Begin(webRtc), answers[..0]) == Loop(webRtc, 1, SettingUp(0), [])
  {}

  lemma SetupAnswered(webRtc: bool, answers: seq<bool>, k: nat, log: seq<Act>)
    requires k < |SETUP| && k < |answers| && AnswerAll(Begin(webRtc), answers[..k]) == Loop(webRtc, 1, SettingUp(k), log)
    ensures AnswerAll(Begin(webRtc), answers[..k + 1]) ==
            var called := log + [SetupCall(k, answers[k])];
            if !answers[k] then Loop(webRtc, 1, Stopped, called)
            else if k + 1 < |SETUP| then Loop(webRtc, 1, SettingUp(k + 1), called)
            else Loop(webRtc, 1, Waiting, called + [Told(PublicAddresses)])
  {
    assert answers[..k + 1][..k] == answers[..k];
    assert log + [SETUP[k], Told(PublicAddresses)] == (log + [SETUP[k]]) + [Told(PublicAddresses)];
  }

  /** The whole arm of a new socket: the notice, and each call's answer in turn. */
  function AfterNewSocket(l: Loop, addr: SocketAddr, mapped: SocketAddr, a: Answers): Loop
  {
    var got := Step(l, Got(NewSocket(addr, mapped)));
    var told := if got.doing.SendingMapped? then Answer(got, a.mappedSent) else got;
    var added := if told.doing.AddingSocket? then Answer(told, a.socket) else told;
    if added.doing.RegisteringForward? then AfterSocketAdded(added, a) else added
  }

  function AfterSocketAdded(l: Loop, a: Answers): Loop
  {
    var forward := Answer(l, a.quicToUdp);
    var back := if forward.doing.RegisteringBack? then Answer(forward, a.udpToQuic) else forward;
    if back.doing.Announcing? then Answer(back, a.assignSent) else back
  }

  /** The event loop's own variables, one method per arm. */
  class EventLoop {
    const webRtc: bool
    var contextId: U64
    var running: bool
    var log: seq<Act>

    function State(): Loop
      reads this
    {
      Loop(webRtc, contextId, if running then Waiting else Stopped, log)
    }

    /** `start_impl` up to the loop.  The calls are made in the order of `SETUP` as
        long as they are granted; at the first refusal there is no loop, and what was
        done before it stays done. */
    static method Start(webRtc: bool, answers: seq<bool>) returns (l: EventLoop?, log: seq<Act>)
      requires |answers| == |SETUP|
      ensures var end := AnswerAll(Begin(webRtc), answers);
              end.log == log && if l != null then end == l.State() else end.doing == Stopped
      ensures l != null ==> fresh(l) && log == SETUP + [Told(PublicAddresses)]
      ensures l == null ==> 0 < |log| <= |SETUP| && !answers[|log| - 1] && log[..|log| - 1] == SETUP[..|log| - 1]
    {
      hide AnswerAll;
      log := [];
      NothingAnswered(webRtc, answers);
      for k := 0 to |SETUP|
        invariant log == SETUP[..k]
        invariant AnswerAll(Begin(webRtc), answers[..k]) ==
                  if k < |SETUP| then Loop(webRtc, 1, SettingUp(k), log)
                  else Loop(webRtc, 1, Waiting, log + [Told(PublicAddresses)])
      {
        SetupAnswered(webRtc, answers, k, log);
        log := log + [SetupCall(k, answers[k])];
        if !answers[k] {
          StoppedStaysStopped(Begin(webRtc), answers, k + 1);
          return null, log;
        }
      }
      assert answers[..|answers|] == answers;
      log := log + [Told(PublicAddresses)];
      l := new EventLoop(webRtc, log);
    }

    constructor (webRtc: bool, log: seq<Act>)
      ensures State() == Loop(webRtc, 1, Waiting, log)
    {
      this.webRtc := webRtc;
      contextId, running := 1, true;
      this.log := log;
    }

    method OnNewSocket(addr: SocketAddr, mapped: SocketAddr, a: Answers)
      requires running
      modifies this
      ensures State() == AfterNewSocket(old(State()), addr, mapped, a)
    {
      hide AfterSocketAdded;
      ghost var l := Step(State(), Got(NewSocket(addr, mapped)));
      if webRtc {
        l := Answer(l, a.mappedSent);
        log := log + [SendMapped(mapped, a.mappedSent)];
        if !a.mappedSent {
          log := log + [Told(CompressionAssignSendFailed(contextId, addr))];
          return;
        }
      }
      log := log + [Told(NewRemoteHost(addr, mapped))];
      assert l == Loop(webRtc, contextId, AddingSocket(addr), log);
      log := log + [RegisterSocket(addr, a.socket)];
      if !a.socket {
        log := log + [Told(SocketRegistrationFailed(addr))];
        return;
      }
      contextId := Next(contextId);
      assert Answer(l, true) == State().(doing := RegisteringForward(addr));
      RegisterContextId(addr, a);
    }

    /** The rest of that arm: the new id both ways, and its announcement. */
    method RegisterContextId(addr: SocketAddr, a: Answers)
      requires running
      modifies this
      ensures State() == AfterSocketAdded(old(State()).(doing := RegisteringForward(addr)), a)
    {
      log := log + [RegisterQuicToUdp(contextId, Some(addr), a.quicToUdp)];
      if !a.quicToUdp {
        log := log + [Told(QuicToUdpRegistrationFailed(contextId, addr))];
        running := false;
        return;
      }
      log := log + [RegisterUdpToQuic(contextId, Some(addr), a.udpToQuic)];
      if !a.udpToQuic {
        log := log + [Told(UdpToQuicRegistrationFailed(contextId, addr))];
        running := false;
        return;
      }
      log := log + [SendAssign(contextId, Some(addr), a.assignSent)];
      if !a.assignSent {
        log := log + [Told(CompressionAssignSendFailed(contextId, addr))];
      }
    }

    /** The notices that lead to one call each. */
    method OnSocketNotice(n: Notice, ok: bool)
      requires running && (n.RetireSocket? || n.SocketConnected? || n.SocketDisconnected?)
      modifies this
      ensures State() == Answer(Step(old(State()), Got(n)), ok)
    {
      match n {
        case RetireSocket(addr) => log := log + [Retire(addr, ok)];
        case SocketConnected(addr) => log := log + [NotifyConnected(addr, ok)];
        case SocketDisconnected(addr) => log := log + [NotifyDisconnected(addr, ok)];
      }
    }

    method OnInvalidated(id: U64, unregistered: bool, closeSent: bool)
      requires running
      modifies this
      ensures State() == Answer(Answer(Step(old(State()), Got(InvalidatedContextId(id))), unregistered), closeSent)
    {
      log := log + [Invalidated(id)];
      log := log + [UnregisterQuicToUdp(id, unregistered)];
      log := log + [SendClose(id, closeSent)];
    }

    method OnCloseReceived(id: U64, udpToQuic: bool, quicToUdp: bool)
      requires running
      modifies this
      ensures State() == Answer(Answer(Step(old(State()), Got(CloseCapsule(id))), udpToQuic), quicToUdp)
    {
      log := log + [UnregisterUdpToQuic(id, udpToQuic)];
      log := log + [UnregisterQuicToUdp(id, quicToUdp)];
    }

    method OnEnd(n: Notice)
      requires running && (n.NoticesGone? || n.BodyFailed? || n.BodyEnded? || n.Shutdown?)
      modifies this
      ensures State() == Step(old(State()), Got(n))
    {
      match n {
        case NoticesGone => log := log + [Told(NotificationChannelClosed)];
        case BodyFailed => log := log + [Told(ResponseBodyReceiveError)];
        case BodyEnded => log := log + [Told(ResponseBodyEnded)];
        case Shutdown =>
      }
      running := false;
    }
  }

  // ----- Ids -----

  /** The ids the loop allocated, in order: one per first registration. */
  function Allocated(log: seq<Act>): seq<U64>
  {
    if log == [] then []
    else
      var last := log[|log| - 1];
      Allocated(log[..|log| - 1]) + (if last.RegisterQuicToUdp? then [last.id] else [])
  }

  function Saturated(n: nat): U64
  {
    if n < U64_MAX then n else U64_MAX
  }

  ghost predicate IdsCount(l: Loop)
  {
    var n := |Allocated(l.log)|;
    && (forall k | 0 <= k < n :: Allocated(l.log)[k] == Saturated(k + 1))
    && match l.doing
       case SettingUp(k) => l.contextId == 1 && n == (if k <= 1 then 0 else 1)
       case RegisteringForward(_) => n >= 1 && l.contextId == Saturated(n + 1)
       case Stopped => true
       case _ => n >= 1 && l.contextId == Saturated(n)
  }

  lemma {:induction false} AllocatedConcat(log: seq<Act>, acts: seq<Act>)
    ensures Allocated(log + acts) == Allocated(log) + Allocated(acts)
    decreases |acts|
  {
    if acts == [] {
      assert log + acts == log;
    } else {
      var n := |acts| - 1;
      assert (log + acts)[..|log + acts| - 1] == log + acts[..n];
      AllocatedConcat(log, acts[..n]);
    }
  }

  /** What a step adds to the log. */
  function Acts(l: Loop, e: Event): (acts: seq<Act>)
    ensures Step(l, e).log == l.log + acts && |acts| <= 2
  {
    assert Step(l, e).log[..|l.log|] == l.log;
    Step(l, e).log[|l.log|..]
  }

  lemma AllocatedByStep(l: Loop, e: Event)
    ensures Allocated(Step(l, e).log) == Allocated(l.log) + Allocated(Acts(l, e))
    ensures Allocated(Acts(l, e)) ==
            match l.doing
            case RegisteringForward(_) => if e.Answered? then [l.contextId] else []
            case SettingUp(k) => if e.Answered? && k == 1 then [1] else []
            case _ => []
  {
    hide Allocated;
    AllocatedConcat(l.log, Acts(l, e));
    AllocatedOfFew(Acts(l, e));
  }

  lemma AllocatedOfFew(acts: seq<Act>)
    requires |acts| <= 2
    ensures Allocated(acts) ==
            (if |acts| > 0 && acts[0].RegisterQuicToUdp? then [acts[0].id] else [])
            + (if |acts| > 1 && acts[1].RegisterQuicToUdp? then [acts[1].id] else [])
  {
    if |acts| == 2 {
      assert acts[..1] == [acts[0]];
      assert acts[..1][..0] == [];
    } else if |acts| == 1 {
      assert acts[..0] == [];
    }
  }

  lemma StepKeepsIdsCount(l: Loop, e: Event)
    requires IdsCount(l)
    ensures IdsCount(Step(l, e))
  {
    hide Allocated, Acts;
    AllocatedByStep(l, e);
  }

  lemma {:induction false} RunKeepsIdsCount(webRtc: bool, events: seq<Event>)
    ensures IdsCount(Run(webRtc, events))
    decreases |events|
  {
    hide Step, IdsCount;
    if events == [] {
      BeginCounts(webRtc);
    } else {
      RunKeepsIdsCount(webRtc, events[..|events| - 1]);
      StepKeepsIdsCount(Run(webRtc, events[..|events| - 1]), events[|events| - 1]);
    }
  }

  lemma BeginCounts(webRtc: bool)
    ensures IdsCount(Begin(webRtc))
  {}

  ghost predicate StrictlyIncreasing(ids: seq<U64>)
  {
    forall i, j | 0 <= i < j < |ids| :: ids[i] < ids[j]
  }

  /** Over any run, whatever fails, the allocated ids strictly increase exactly
      until the counter has saturated. */
  lemma IdsIncreaseExactlyBeforeSaturation(webRtc: bool, events: seq<Event>)
    ensures var ids := Allocated(Run(webRtc, events).log);
            StrictlyIncreasing(ids) <==> |ids| <= 0xFFFF_FFFF_FFFF_FFFF
  {
    RunKeepsIdsCount(webRtc, events);
    var ids := Allocated(Run(webRtc, events).log);
    if |ids| > U64_MAX {
      var last := U64_MAX as nat;
      assert ids[last - 1] == ids[last];
    }
  }

  // ----- Order of calls -----

  /** Every call is preceded by what entitles the loop to make it. */
  ghost predicate WellOrdered(log: seq<Act>)
  {
    forall i | 0 <= i < |log| :: Entitled(log, i)
  }

  ghost predicate Entitled(log: seq<Act>, i: nat)
    requires i < |log|
  {
    MayFollow(log[..i], log[i])
  }

  /** Whether the loop may make this call after those. */
  ghost predicate MayFollow(log: seq<Act>, a: Act)
  {
    var n := |log|;
    match a
    case RegisterSocket(addr, _) =>
      n >= 1 && log[n - 1].Told? && log[n - 1].event.NewRemoteHost? && log[n - 1].event.remote == addr
    case RegisterQuicToUdp(id, addr, _) =>
      n >= 1 && if addr.None? then id == 1 && log[n - 1] == RegisterStream(true) else log[n - 1] == RegisterSocket(addr.value, true)
    case RegisterUdpToQuic(id, addr, _) =>
      if addr.None? then
        id == 1 && n >= 2 && log[n - 1] == StartReader(true) && log[n - 2] == RegisterQuicToUdp(1, None, true)
      else n >= 1 && log[n - 1] == RegisterQuicToUdp(id, addr, true)
    case SendAssign(id, addr, _) => n >= 1 && log[n - 1] == RegisterUdpToQuic(id, addr, true)
    case UnregisterQuicToUdp(id, _) =>
      n >= 1 && (log[n - 1] == Invalidated(id) || (log[n - 1].UnregisterUdpToQuic? && log[n - 1].id == id))
    case SendClose(id, _) =>
      n >= 2 && log[n - 1].UnregisterQuicToUdp? && log[n - 1].id == id && log[n - 2] == Invalidated(id)
    case _ => true
  }

  /** What the call in hand says about the calls before it. */
  ghost predicate LeadsTo(log: seq<Act>, doing: Doing, id: U64)
  {
    var n := |log|;
    match doing
    case SettingUp(k) => k < |SETUP| && log == SETUP[..k]
    case AddingSocket(addr) =>
      n >= 1 && log[n - 1].Told? && log[n - 1].event.NewRemoteHost? && log[n - 1].event.remote == addr
    case RegisteringForward(addr) => n >= 1 && log[n - 1] == RegisterSocket(addr, true)
    case RegisteringBack(addr) => n >= 1 && log[n - 1] == RegisterQuicToUdp(id, Some(addr), true)
    case Announcing(addr) => n >= 1 && log[n - 1] == RegisterUdpToQuic(id, Some(addr), true)
    case Unregistering(gone) => n >= 1 && log[n - 1] == Invalidated(gone)
    case Closing(gone) =>
      n >= 2 && log[n - 1].UnregisterQuicToUdp? && log[n - 1].id == gone && log[n - 2] == Invalidated(gone)
    case ForgettingForward(gone) => n >= 1 && log[n - 1].UnregisterUdpToQuic? && log[n - 1].id == gone
    case _ => true
  }

  ghost predicate InOrder(l: Loop)
  {
    WellOrdered(l.log) && LeadsTo(l.log, l.doing, l.contextId)
  }

  lemma WellOrderedConcat(log: seq<Act>, acts: seq<Act>)
    requires WellOrdered(log)
    requires forall i | |log| <= i < |log + acts| :: Entitled(log + acts, i)
    ensures WellOrdered(log + acts)
  {
    forall i | 0 <= i < |log|
      ensures Entitled(log + acts, i)
    {
      assert Entitled(log, i);
      assert (log + acts)[..i] == log[..i];
    }
  }

  lemma StepKeepsOrder(l: Loop, e: Event)
    requires InOrder(l)
    ensures InOrder(Step(l, e))
  {
    hide WellOrdered;
    StepIsEntitled(l, e);
    WellOrderedConcat(l.log, Acts(l, e));
    StepLeadsOn(l, e);
  }

  lemma StepIsEntitled(l: Loop, e: Event)
    requires LeadsTo(l.log, l.doing, l.contextId)
    ensures var log := l.log + Acts(l, e);
            forall i | |l.log| <= i < |log| :: Entitled(log, i)
  {
    hide Step, LeadsTo, MayFollow, Acts;
    var n, log := |l.log|, l.log + Acts(l, e);
    assert log[..n] == l.log;
    if |log| > n {
      FirstIsEntitled(l, e);
    }
    if |log| > n + 1 {
      SecondIsTold(l, e, log[..n + 1]);
    }
  }

  lemma SecondIsTold(l: Loop, e: Event, before: seq<Act>)
    requires |Acts(l, e)| == 2
    ensures MayFollow(before, Acts(l, e)[1])
  {}

  lemma FirstIsEntitled(l: Loop, e: Event)
    requires LeadsTo(l.log, l.doing, l.contextId) && Acts(l, e) != []
    ensures MayFollow(l.log, Acts(l, e)[0])
  {
    hide Step, LeadsTo, MayFollow, Acts;
    if e.Got? {
      NoticeIsEntitled(l, e);
    } else if l.doing.SettingUp? {
      SetupCallIsEntitled(l, e);
    } else {
      CallIsEntitled(l, e.ok);
      FirstAct(l, e);
    }
  }

  lemma FirstAct(l: Loop, e: Event)
    requires e.Answered? && Acts(l, e) != []
    ensures |Call(l, e.ok).log| > |l.log| && Acts(l, e)[0] == Call(l, e.ok).log[|l.log|]
  {
    hide Call;
  }

  lemma NoticeIsEntitled(l: Loop, e: Event)
    requires e.Got? && Acts(l, e) != []
    ensures MayFollow(l.log, Acts(l, e)[0])
  {
    hide Call;
  }

  lemma SetupCallIsEntitled(l: Loop, e: Event)
    requires LeadsTo(l.log, l.doing, l.contextId) && Acts(l, e) != [] && e.Answered? && l.doing.SettingUp?
    ensures MayFollow(l.log, Acts(l, e)[0])
  {
    hide Receive, MayFollow;
    assert Acts(l, e)[0] == SetupCall(l.doing.step, e.ok);
    SetupIsEntitled(l.log, l.doing.step, e.ok);
  }

  lemma SetupIsEntitled(log: seq<Act>, k: nat, ok: bool)
    requires k < |SETUP| && log == SETUP[..k]
    ensures MayFollow(log, SetupCall(k, ok))
  {
    assert k >= 1 ==> log[k - 1] == SetupCall(k - 1, true);
    assert k >= 2 ==> log[k - 2] == SetupCall(k - 2, true);
  }

  lemma CallIsEntitled(l: Loop, ok: bool)
    requires LeadsTo(l.log, l.doing, l.contextId) && !l.doing.SettingUp?
    ensures var after := Call(l, ok).log;
            |after| > |l.log| ==> MayFollow(l.log, after[|l.log|])
  {
    hide SetupCall;
  }

  lemma StepLeadsOn(l: Loop, e: Event)
    requires LeadsTo(l.log, l.doing, l.contextId)
    ensures var s := Step(l, e);
            LeadsTo(s.log, s.doing, s.contextId)
  {}

  /** Over any run: an id is announced only straight after both forwarders
      acknowledged that id for that address, an id is registered only straight after
      its socket was, and a CLOSE is sent only straight after its id was asked to be
      unregistered. */
  lemma {:induction false} CallsAreWellOrdered(webRtc: bool, events: seq<Event>)
    ensures InOrder(Run(webRtc, events))
    decreases |events|
  {
    hide Step, InOrder;
    if events == [] {
      BeginIsInOrder(webRtc);
    } else {
      CallsAreWellOrdered(webRtc, events[..|events| - 1]);
      StepKeepsOrder(Run(webRtc, events[..|events| - 1]), events[|events| - 1]);
    }
  }

  lemma BeginIsInOrder(webRtc: bool)
    ensures InOrder(Begin(webRtc))
  {}

  // ----- What every call leads to -----

  /** Whether something has to come next in a log that ends like this. */
  ghost predicate Owing(log: seq<Act>)
  {
    var n := |log|;
    n > 0 && match log[n - 1]
      case RegisterStream(ok) => ok
      case StartReader(ok) => ok
      case ReadAddresses(ok) => ok
      case SendMapped(_, _) => true
      case RegisterSocket(_, _) => true
      case RegisterQuicToUdp(_, addr, ok) => ok || addr.Some?
      case RegisterUdpToQuic(_, addr, ok) => ok || addr.Some?
      case SendAssign(_, addr, ok) => if addr.None? then ok else !ok
      case Invalidated(_) => true
      case UnregisterUdpToQuic(_, _) => true
      case UnregisterQuicToUdp(id, _) => n > 1 && log[n - 2] == Invalidated(id)
      case Told(event) => event.NewRemoteHost?
      case _ => false
  }

  /** And whether `a` is it: a socket is registered once the application knows of it; a
      registered socket gets an id, first forward, then back; an id registered both
      ways is announced; what fails is told; an id that is gone leaves the table and is
      closed; one that the proxy closed leaves both. */
  ghost predicate Meets(log: seq<Act>, a: Act)
  {
    var n := |log|;
    n > 0 && match log[n - 1]
      case RegisterStream(_) => a.RegisterQuicToUdp? && a.id == 1 && a.addr == None
      case StartReader(_) => a.RegisterUdpToQuic? && a.id == 1 && a.addr == None
      case ReadAddresses(_) => a == Told(PublicAddresses)
      case SendMapped(mapped, ok) =>
        a.Told? && if ok then a.event.NewRemoteHost? && a.event.mapped == mapped else a.event.CompressionAssignSendFailed?
      case RegisterSocket(addr, ok) =>
        if ok then a.RegisterQuicToUdp? && a.addr == Some(addr) else a == Told(SocketRegistrationFailed(addr))
      case RegisterQuicToUdp(id, addr, ok) =>
        if addr.None? then a.StartReader?
        else if ok then a.RegisterUdpToQuic? && a.id == id && a.addr == addr
        else a == Told(QuicToUdpRegistrationFailed(id, addr.value))
      case RegisterUdpToQuic(id, addr, ok) =>
        if ok then a.SendAssign? && a.id == id && a.addr == addr
        else addr.Some? && a == Told(UdpToQuicRegistrationFailed(id, addr.value))
      case SendAssign(id, addr, _) =>
        if addr.None? then a.ReadAddresses? else a == Told(CompressionAssignSendFailed(id, addr.value))
      case Invalidated(id) => a.UnregisterQuicToUdp? && a.id == id
      case UnregisterUdpToQuic(id, _) => a.UnregisterQuicToUdp? && a.id == id
      case UnregisterQuicToUdp(id, _) => a.SendClose? && a.id == id
      case Told(event) => event.NewRemoteHost? && a.RegisterSocket? && a.remote == event.remote
      case _ => false
  }

  ghost predicate FollowedUp(log: seq<Act>)
  {
    forall i | 0 <= i < |log| :: Owing(log[..i]) ==> Meets(log[..i], log[i])
  }

  /** The call in hand is owed, unless it is the first of its notice. */
  predicate Owed(doing: Doing)
  {
    match doing
    case SettingUp(k) => k > 0
    case Waiting => false
    case SendingMapped(_, _) => false
    case Retiring(_) => false
    case Connecting(_) => false
    case Disconnecting(_) => false
    case ForgettingBack(_) => false
    case Stopped => false
    case _ => true
  }

  lemma FollowedUpConcat(log: seq<Act>, acts: seq<Act>)
    requires FollowedUp(log) && |acts| <= 2
    requires |acts| > 0 && Owing(log) ==> Meets(log, acts[0])
    requires |acts| > 1 && Owing(log + [acts[0]]) ==> Meets(log + [acts[0]], acts[1])
    ensures FollowedUp(log + acts)
  {
    hide Owing, Meets;
    forall i | 0 <= i < |log + acts|
      ensures Owing((log + acts)[..i]) ==> Meets((log + acts)[..i], (log + acts)[i])
    {
      if i < |log| {
        assert (log + acts)[..i] == log[..i];
      } else if i == |log| {
        assert (log + acts)[..i] == log;
      } else {
        assert (log + acts)[..i] == log + [acts[0]];
      }
    }
  }

  lemma StepFollowsUp(l: Loop, e: Event)
    requires InOrder(l) && FollowedUp(l.log) && (Owing(l.log) <==> Owed(l.doing))
    ensures var s := Step(l, e);
            FollowedUp(s.log) && (Owing(s.log) <==> Owed(s.doing))
  {
    hide FollowedUp, WellOrdered, Step, LeadsTo, Owing, Meets, Acts;
    if e.Got? {
      NoticeOwes(l, e.notice);
    } else if l.doing.SettingUp? {
      SetupOwes(l, e.ok);
    } else {
      CallOwes(l, e.ok);
    }
    ActsOfStep(l, e);
    assert Step(l, e).log[..|l.log|] == l.log;
    assert Acts(l, e) == [] ==> Step(l, e).log == l.log;
    FollowedUpConcat(l.log, Acts(l, e));
  }

  /** A step's acts by their places in the new log. */
  lemma ActsOfStep(l: Loop, e: Event)
    ensures var log := Step(l, e).log;
            && log == l.log + Acts(l, e)
            && |log| == |l.log| + |Acts(l, e)|
            && (|Acts(l, e)| > 0 ==> Acts(l, e)[0] == log[|l.log|])
            && (|Acts(l, e)| > 1 ==> Acts(l, e)[1] == log[|l.log| + 1])
    ensures Step(l, e) == if e.Answered? then Call(l, e.ok) else if l.doing == Waiting then Receive(l, e.notice) else l
  {
    hide Call, Receive;
  }

  /** What a step owes, and what it pays. */
  ghost predicate Pays(l: Loop, s: Loop)
  {
    var n, m := |l.log|, |s.log|;
    && n <= m <= n + 2
    && (m > n && Owed(l.doing) ==> Meets(l.log, s.log[n]))
    && (m > n + 1 && Owing(l.log + [s.log[n]]) ==> Meets(l.log + [s.log[n]], s.log[n + 1]))
    && (m > n ==> (Owing(s.log) <==> Owed(s.doing)))
    && (m == n ==> (Owed(s.doing) <==> Owed(l.doing)))
  }

  lemma NoticeOwes(l: Loop, n: Notice)
    requires l.doing == Waiting ==> !Owing(l.log)
    ensures l.doing == Waiting ==> Pays(l, Receive(l, n))
  {}

  lemma SetupOwes(l: Loop, ok: bool)
    requires LeadsTo(l.log, l.doing, l.contextId) && l.doing.SettingUp?
    ensures Pays(l, Call(l, ok))
  {
    var k := l.doing.step;
    SetupCallIsOwed(l.log, k, ok);
    assert Call(l, ok).log[..|l.log|] == l.log;
    hide Owing, Meets, LeadsTo, Call;
    SetupPays(l, ok);
  }

  lemma SetupPays(l: Loop, ok: bool)
    requires l.doing.SettingUp? && l.doing.step < |SETUP|
    requires var a := SetupCall(l.doing.step, ok);
             && (l.doing.step > 0 ==> Meets(l.log, a))
             && (Owing(l.log + [a]) <==> ok)
             && (l.doing.step == 5 && ok ==> Meets(l.log + [a], Told(PublicAddresses)))
             && !Owing((l.log + [a]) + [Told(PublicAddresses)])
    ensures Pays(l, Call(l, ok))
  {
    hide Owing, Meets, SetupCall;
    var a := SetupCall(l.doing.step, ok);
    assert l.log + [a, Told(PublicAddresses)] == (l.log + [a]) + [Told(PublicAddresses)];
    assert ok ==> a == SETUP[l.doing.step];
  }

  lemma SetupCallIsOwed(log: seq<Act>, k: nat, ok: bool)
    requires k < |SETUP| && log == SETUP[..k]
    ensures var a := SetupCall(k, ok);
            && (k > 0 ==> Meets(log, a))
            && (Owing(log + [a]) <==> ok)
            && (k == 5 && ok ==> Meets(log + [a], Told(PublicAddresses)))
            && !Owing((log + [a]) + [Told(PublicAddresses)])
  {
    assert k > 0 ==> log[k - 1] == SetupCall(k - 1, true);
  }

  lemma CallOwes(l: Loop, ok: bool)
    requires LeadsTo(l.log, l.doing, l.contextId) && !l.doing.SettingUp?
    ensures Pays(l, Call(l, ok))
  {
    hide Pays, LeadsTo, Call;
    if l.doing.SendingMapped? || l.doing.AddingSocket? || l.doing.RegisteringForward? {
      FirstCallsOwe(l, ok);
    } else if l.doing.RegisteringBack? || l.doing.Announcing? {
      LastCallsOwe(l, ok);
    } else {
      OtherCallsOwe(l, ok);
    }
  }

  lemma FirstCallsOwe(l: Loop, ok: bool)
    requires LeadsTo(l.log, l.doing, l.contextId)
    requires l.doing.SendingMapped? || l.doing.AddingSocket? || l.doing.RegisteringForward?
    ensures Pays(l, Call(l, ok))
  {
    hide SetupCall;
  }

  lemma LastCallsOwe(l: Loop, ok: bool)
    requires LeadsTo(l.log, l.doing, l.contextId) && (l.doing.RegisteringBack? || l.doing.Announcing?)
    ensures Pays(l, Call(l, ok))
  {
    hide SetupCall;
  }

  lemma OtherCallsOwe(l: Loop, ok: bool)
    requires LeadsTo(l.log, l.doing, l.contextId) && !l.doing.SettingUp? && !l.doing.SendingMapped?
    requires !l.doing.AddingSocket? && !l.doing.RegisteringForward? && !l.doing.RegisteringBack? && !l.doing.Announcing?
    ensures Pays(l, Call(l, ok))
  {
    hide SetupCall;
  }

  /** Over any run, whatever is answered: everything a call leads to follows directly
      upon it; what is still owed at the end of the log is the call the loop makes
      next.  So an id registered both ways is always announced, and one that is gone
      always closed. */
  lemma {:induction false} EveryCallIsFollowedUp(webRtc: bool, events: seq<Event>)
    ensures var l := Run(webRtc, events);
            && FollowedUp(l.log)
            && (Owing(l.log) ==> forall ok :: var next := Answer(l, ok).log;
                  l.log < next && Meets(l.log, next[|l.log|]))
  {
    hide FollowedUp, Owing, Meets, InOrder, Step;
    var l := Run(webRtc, events);
    RunFollowsUp(webRtc, events);
    CallsAreWellOrdered(webRtc, events);
    if Owing(l.log) {
      forall ok
        ensures var next := Answer(l, ok).log; l.log < next && Meets(l.log, next[|l.log|])
      {
        OwedIsMade(l, ok);
      }
    }
  }

  lemma OwedIsMade(l: Loop, ok: bool)
    requires InOrder(l) && Owing(l.log) && Owed(l.doing)
    ensures var next := Answer(l, ok).log; l.log < next && Meets(l.log, next[|l.log|])
  {
    hide Owing, Meets, LeadsTo, WellOrdered;
    if l.doing.SettingUp? {
      SetupOwes(l, ok);
    } else {
      CallOwes(l, ok);
    }
    CallMakesOne(l, ok);
  }

  lemma CallMakesOne(l: Loop, ok: bool)
    requires Owed(l.doing) && LeadsTo(l.log, l.doing, l.contextId)
    ensures l.log < Call(l, ok).log && Answer(l, ok) == Call(l, ok)
  {}

  lemma {:induction false} RunFollowsUp(webRtc: bool, events: seq<Event>)
    ensures var l := Run(webRtc, events);
            FollowedUp(l.log) && (Owing(l.log) <==> Owed(l.doing))
    decreases |events|
  {
    hide Step, InOrder, FollowedUp, Owing, Owed;
    if events == [] {
      BeginOwesNothing(webRtc);
    } else {
      RunFollowsUp(webRtc, events[..|events| - 1]);
      CallsAreWellOrdered(webRtc, events[..|events| - 1]);
      StepFollowsUp(Run(webRtc, events[..|events| - 1]), events[|events| - 1]);
    }
  }

  lemma BeginOwesNothing(webRtc: bool)
    ensures var l := Begin(webRtc);
            FollowedUp(l.log) && !Owing(l.log) && !Owed(l.doing)
  {}

  /** What ends the loop: being told so, or a refused setup call or registration of an
      id.  A refused socket, or anything that cannot be sent, does not. */
  ghost predicate EndsIt(l: Loop, e: Event)
  {
    match e
    case Got(n) => l.doing == Waiting && (n.NoticesGone? || n.BodyFailed? || n.BodyEnded? || n.Shutdown?)
    case Answered(ok) => !ok && (l.doing.SettingUp? || l.doing.RegisteringForward? || l.doing.RegisteringBack?)
  }

  ghost predicate EndedAt(webRtc: bool, events: seq<Event>, i: nat)
    requires i < |events|
  {
    EndsIt(Run(webRtc, events[..i]), events[i])
  }

  lemma StepStops(l: Loop, e: Event)
    requires l.doing.SettingUp? ==> l.doing.step < |SETUP|
    ensures Step(l, e).doing == Stopped <==> l.doing == Stopped || EndsIt(l, e)
  {
    hide SetupCall;
  }

  /** Over any run the loop has stopped exactly when one of these has happened. */
  lemma {:induction false} StoppedExactlyWhenEnded(webRtc: bool, events: seq<Event>)
    ensures Run(webRtc, events).doing == Stopped <==> exists i | 0 <= i < |events| :: EndedAt(webRtc, events, i)
    decreases |events|
  {
    hide Step, EndsIt, EndedAt, WellOrdered;
    if events != [] {
      var n := |events| - 1;
      var front := events[..n];
      StoppedExactlyWhenEnded(webRtc, front);
      CallsAreWellOrdered(webRtc, front);
      StepStops(Run(webRtc, front), events[n]);
      forall i | 0 <= i < n
        ensures EndedAt(webRtc, events, i) <==> EndedAt(webRtc, front, i)
      {
        EndedBefore(webRtc, events, i);
      }
      EndedLast(webRtc, events);
    }
  }

  lemma EndedBefore(webRtc: bool, events: seq<Event>, i: nat)
    requires i < |events| - 1
    ensures EndedAt(webRtc, events, i) <==> EndedAt(webRtc, events[..|events| - 1], i)
  {
    assert events[..|events| - 1][..i] == events[..i];
  }

  lemma EndedLast(webRtc: bool, events: seq<Event>)
    requires events != []
    ensures var n := |events| - 1;
            EndedAt(webRtc, events, n) <==> EndsIt(Run(webRtc, events[..n]), events[n])
  {}

  /** And each notice leads to its calls: the whole arm of every one, taken while the
      loop waits, with what it adds to the log. */
  lemma WhatEachNoticeLeadsTo(l: Loop, addr: SocketAddr, mapped: SocketAddr, id: U64, first: bool, second: bool)
    requires l.doing == Waiting
    ensures var after := AfterNewSocket(l, addr, mapped, Answers(true, true, true, true, true));
            var next := if l.contextId < U64_MAX then l.contextId + 1 else U64_MAX;
            && after.doing == Waiting && after.contextId == next
            && after.log == l.log + (if l.webRtc then [SendMapped(mapped, true)] else [])
                 + [Told(NewRemoteHost(addr, mapped)), RegisterSocket(addr, true), RegisterQuicToUdp(next, Some(addr), true),
                    RegisterUdpToQuic(next, Some(addr), true), SendAssign(next, Some(addr), true)]
    ensures Answer(Step(l, Got(RetireSocket(addr))), first) == l.(log := l.log + [Retire(addr, first)])
    ensures Answer(Step(l, Got(SocketConnected(addr))), first) == l.(log := l.log + [NotifyConnected(addr, first)])
    ensures Answer(Step(l, Got(SocketDisconnected(addr))), first) == l.(log := l.log + [NotifyDisconnected(addr, first)])
    ensures Answer(Answer(Step(l, Got(InvalidatedContextId(id))), first), second) ==
            l.(log := l.log + [Invalidated(id), UnregisterQuicToUdp(id, first), SendClose(id, second)])
    ensures Answer(Answer(Step(l, Got(CloseCapsule(id))), first), second) ==
            l.(log := l.log + [UnregisterUdpToQuic(id, first), UnregisterQuicToUdp(id, second)])
    ensures Step(l, Got(NoticesGone)) == l.(doing := Stopped, log := l.log + [Told(NotificationChannelClosed)])
    ensures Step(l, Got(BodyFailed)) == l.(doing := Stopped, log := l.log + [Told(ResponseBodyReceiveError)])
    ensures Step(l, Got(BodyEnded)) == l.(doing := Stopped, log := l.log + [Told(ResponseBodyEnded)])
    ensures Step(l, Got(Shutdown)) == l.(doing := Stopped)
  {
    hide AfterNewSocket, Step, Answer;
    NewSocketGranted(l, addr, mapped);
    SocketNotices(l, addr, first);
    IdNotices(l, id, first, second);
    LastNotices(l);
  }

  lemma SocketNotices(l: Loop, addr: SocketAddr, ok: bool)
    requires l.doing == Waiting
    ensures Answer(Step(l, Got(RetireSocket(addr))), ok) == l.(log := l.log + [Retire(addr, ok)])
    ensures Answer(Step(l, Got(SocketConnected(addr))), ok) == l.(log := l.log + [NotifyConnected(addr, ok)])
    ensures Answer(Step(l, Got(SocketDisconnected(addr))), ok) == l.(log := l.log + [NotifyDisconnected(addr, ok)])
  {
    assert l.log + [] == l.log;
  }

  lemma IdNotices(l: Loop, id: U64, first: bool, second: bool)
    requires l.doing == Waiting
    ensures Answer(Answer(Step(l, Got(InvalidatedContextId(id))), first), second) ==
            l.(log := l.log + [Invalidated(id), UnregisterQuicToUdp(id, first), SendClose(id, second)])
    ensures Answer(Answer(Step(l, Got(CloseCapsule(id))), first), second) ==
            l.(log := l.log + [UnregisterUdpToQuic(id, first), UnregisterQuicToUdp(id, second)])
  {
    assert l.log + [] == l.log;
  }

  lemma LastNotices(l: Loop)
    requires l.doing == Waiting
    ensures Step(l, Got(NoticesGone)) == l.(doing := Stopped, log := l.log + [Told(NotificationChannelClosed)])
    ensures Step(l, Got(BodyFailed)) == l.(doing := Stopped, log := l.log + [Told(ResponseBodyReceiveError)])
    ensures Step(l, Got(BodyEnded)) == l.(doing := Stopped, log := l.log + [Told(ResponseBodyEnded)])
    ensures Step(l, Got(Shutdown)) == l.(doing := Stopped)
  {
    assert l.log + [] == l.log;
  }

  lemma NewSocketGranted(l: Loop, addr: SocketAddr, mapped: SocketAddr)
    requires l.doing == Waiting
    ensures var after := AfterNewSocket(l, addr, mapped, Answers(true, true, true, true, true));
            var next := if l.contextId < U64_MAX then l.contextId + 1 else U64_MAX;
            && after.doing == Waiting && after.contextId == next
            && after.log == l.log + (if l.webRtc then [SendMapped(mapped, true)] else [])
                 + [Told(NewRemoteHost(addr, mapped)), RegisterSocket(addr, true), RegisterQuicToUdp(next, Some(addr), true),
                    RegisterUdpToQuic(next, Some(addr), true), SendAssign(next, Some(addr), true)]
  {
    hide AfterSocketAdded;
    var next := if l.contextId < U64_MAX then l.contextId + 1 else U64_MAX;
    var told := l.log + (if l.webRtc then [SendMapped(mapped, true)] else []) + [Told(NewRemoteHost(addr, mapped))];
    var added := Loop(l.webRtc, next, RegisteringForward(addr), told + [RegisterSocket(addr, true)]);
    var got := Step(l, Got(NewSocket(addr, mapped)));
    assert (if l.webRtc then Answer(got, true) else got) == Loop(l.webRtc, l.contextId, AddingSocket(addr), told);
    assert AfterNewSocket(l, addr, mapped, Answers(true, true, true, true, true)) ==
           AfterSocketAdded(added, Answers(true, true, true, true, true));
    IdsGranted(added, addr);
  }

  lemma IdsGranted(l: Loop, addr: SocketAddr)
    requires l.doing == RegisteringForward(addr)
    ensures AfterSocketAdded(l, Answers(true, true, true, true, true)) ==
            l.(doing := Waiting,
               log := l.log + [RegisterQuicToUdp(l.contextId, Some(addr), true), RegisterUdpToQuic(l.contextId, Some(addr), true),
                               SendAssign(l.contextId, Some(addr), true)])
  {}

  /** The setup, all granted. */
  lemma SetupInFigures(webRtc: bool)
    ensures AnswerAll(Begin(webRtc), [true, true, true, true, true, true]) ==
            Loop(webRtc, 1, Waiting, [
              RegisterStream(true), RegisterQuicToUdp(1, None, true), StartReader(true), RegisterUdpToQuic(1, None, true),
              SendAssign(1, None, true), ReadAddresses(true), Told(PublicAddresses)])
  {
    var answers := [true, true, true, true, true, true];
    NothingAnswered(webRtc, answers);
    assert answers[..0] == [];
    for k := 0 to |SETUP|
      invariant AnswerAll(Begin(webRtc), answers[..k]) ==
                if k < |SETUP| then Loop(webRtc, 1, SettingUp(k), SETUP[..k])
                else Loop(webRtc, 1, Waiting, SETUP + [Told(PublicAddresses)])
    {
      SetupAnswered(webRtc, answers, k, SETUP[..k]);
      assert SETUP[..k] + [SetupCall(k, true)] == SETUP[..k + 1];
    }
    assert answers[..6] == answers;
  }

  // ----- One address per id -----

  ghost predicate Names(a: Act)
  {
    a.RegisterQuicToUdp? || a.RegisterUdpToQuic? || a.SendAssign?
  }

  /** Where the registration that a naming call belongs to stands in the log. */
  function Origin(log: seq<Act>, i: nat): (o: nat)
    requires i < |log| && Names(log[i]) && WellOrdered(log)
    ensures o <= i <= o + 3 && log[o].RegisterQuicToUdp? && log[o].id == log[i].id && log[o].addr == log[i].addr
    decreases i
  {
    assert Entitled(log, i);
    if log[i].RegisterQuicToUdp? then i
    else if log[i].RegisterUdpToQuic? then (if log[i].addr.None? then i - 2 else i - 1)
    else Origin(log, i - 1)
  }

  lemma {:induction false} AllocatedAt(log: seq<Act>, i: nat)
    requires i < |log| && log[i].RegisterQuicToUdp?
    ensures |Allocated(log[..i])| < |Allocated(log)|
    ensures Allocated(log)[|Allocated(log[..i])|] == log[i].id
    decreases |log|
  {
    var front := log[..|log| - 1];
    if i < |front| {
      AllocatedAt(front, i);
      assert front[..i] == log[..i];
    }
  }

  lemma {:induction false} AllocatedGrows(log: seq<Act>, i: nat, j: nat)
    requires i < j < |log| && log[i].RegisterQuicToUdp?
    ensures |Allocated(log[..i])| < |Allocated(log[..j])|
  {
    AllocatedAt(log[..j], i);
    assert log[..j][..i] == log[..i];
  }

  /** Before saturation no id ever names two addresses, in any call of any run. */
  lemma OneAddressPerId(webRtc: bool, events: seq<Event>, i: nat, j: nat)
    requires var log := Run(webRtc, events).log;
             && i < |log| && j < |log| && Names(log[i]) && Names(log[j]) && log[i].id == log[j].id
             && |Allocated(log)| <= 0xFFFF_FFFF_FFFF_FFFF
    ensures var log := Run(webRtc, events).log;
            log[i].addr == log[j].addr
  {
    hide Run, Allocated, LeadsTo;
    var log := Run(webRtc, events).log;
    CallsAreWellOrdered(webRtc, events);
    IdsIncreaseExactlyBeforeSaturation(webRtc, events);
    var a, b := Origin(log, i), Origin(log, j);
    AllocatedAt(log, a);
    AllocatedAt(log, b);
    if a < b {
      AllocatedGrows(log, a, b);
    } else if b < a {
      AllocatedGrows(log, b, a);
    }
  }

  /** On the wire too: below 2^62 ids, two announcements of a run never carry the
      same bytes. */
  lemma AnnouncementsDiffer(webRtc: bool, events: seq<Event>, i: nat, j: nat)
    requires var log := Run(webRtc, events).log;
             && i < j < |log| && log[i].SendAssign? && log[j].SendAssign?
             && |Allocated(log)| < VARINT_LIMIT
    ensures var log := Run(webRtc, events).log;
            && log[i].id < log[j].id
            && Raw(AssignCapsule(log[i].id, log[i].addr)) != Raw(AssignCapsule(log[j].id, log[j].addr))
  {
    hide Run, Raw, AssignCapsule, Allocated, LeadsTo;
    CallsAreWellOrdered(webRtc, events);
    RunKeepsIdsCount(webRtc, events);
    AnnouncementsDifferInLog(Run(webRtc, events), i, j);
  }

  lemma AnnouncementsDifferInLog(l: Loop, i: nat, j: nat)
    requires IdsCount(l) && WellOrdered(l.log) && |Allocated(l.log)| < VARINT_LIMIT
    requires i < j < |l.log| && l.log[i].SendAssign? && l.log[j].SendAssign?
    ensures l.log[i].id < l.log[j].id
    ensures Raw(AssignCapsule(l.log[i].id, l.log[i].addr)) != Raw(AssignCapsule(l.log[j].id, l.log[j].addr))
  {
    hide Raw, AssignCapsule, Allocated;
    var log := l.log;
    var a, b := Origin(log, i), Origin(log, j);
    OriginsKeepOrder(log, i, j);
    AllocatedAt(log, a);
    AllocatedAt(log, b);
    AllocatedGrows(log, a, b);
    AssignBytesSeparate(log[i].id, log[i].addr, log[j].id, log[j].addr);
  }

  lemma OriginsKeepOrder(log: seq<Act>, i: nat, j: nat)
    requires i < j < |log| && log[i].SendAssign? && log[j].SendAssign? && WellOrdered(log)
    ensures Origin(log, i) < Origin(log, j)
  {
    assert Entitled(log, j) && Entitled(log, j - 1);
  }
}
