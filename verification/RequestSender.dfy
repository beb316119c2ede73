/**
 The reconnecting request sender, the adapter above it and the buffer on top.

 What the network does (a driver ending, an attempt failing) and when callers ask
 or give up are arguments of the steps.  `tower::Buffer` is not part of the
 repository; `BufferTurn` is the worker behaviour its tests and comments state: it
 latches the first readiness failure it is told of.
 */
module RequestSender {
  import opened Wrappers

  type Connection = nat
  type ConnectError = nat

  // ----- MasqueRequestSender -----

  /** `Poll<Result<(), E>>`. */
  datatype Poll = Pending | Ready | NotReady(error: ConnectError)
  /** What `driver_rx.try_recv()` finds: nothing yet, the driver's farewell, or its channel gone. */
  datatype DriverPoll = Running | SaidGoodbye | ChannelClosed
  datatype AttemptPoll = StillConnecting | Connected(conn: Connection) | ConnectFailed(error: ConnectError)

  /** The parts of an address that matter here; `builds` is whether the builder
      accepts what a request would be rewritten to. */
  datatype BaseUri = BaseUri(scheme: Option<string>, authority: Option<string>)
  datatype Req = Req(pathAndQuery: Option<string>, builds: bool)
  datatype Uri = Uri(scheme: string, authority: string, pathAndQuery: string)

  datatype Outcome =
    | ConnectFailure(error: ConnectError)
    | Uninitialized
    | MissingScheme | MissingAuthority | MissingPath | UnbuildableUri
    | Sent(conn: Connection, uri: Uri)

  /** `channels` stands for the three handles beside `send_request`, which are set
      together with it and never cleared. */
  datatype Sender = Sender(
    sendRequest: Option<Connection>, driver: bool, channels: bool, attempt: bool, connectFailure: Option<ConnectError>)

  const NEW_SENDER := Sender(None, false, false, false, None)

  function PollSender(s: Sender, driver: DriverPoll, attempt: AttemptPoll): (Sender, Poll)
  {
    var checked := if s.driver && driver != Running then s.(sendRequest := None, driver := false) else s;
    if checked.sendRequest.Some? then (checked, Ready)
    else match attempt
      case StillConnecting => (checked.(attempt := true), Pending)
      case Connected(conn) => (Sender(Some(conn), true, true, false, None), Ready)
      case ConnectFailed(e) => (checked.(attempt := false, connectFailure := Some(e)), Ready)
  }

  function CallSender(s: Sender, base: BaseUri, req: Req): (Sender, Outcome)
  {
    if s.connectFailure.Some? then (s.(connectFailure := None), ConnectFailure(s.connectFailure.value))
    else if s.sendRequest.None? || !s.channels then (s, Uninitialized)
    else if base.scheme.None? then (s, MissingScheme)
    else if base.authority.None? then (s, MissingAuthority)
    else if req.pathAndQuery.None? then (s, MissingPath)
    else if !req.builds then (s, UnbuildableUri)
    else (s, Sent(s.sendRequest.value, Rewritten(base, req)))
  }

  /** A request that can be sent once there is a connection. */
  predicate Addressed(base: BaseUri, req: Req)
  {
    base.scheme.Some? && base.authority.Some? && req.pathAndQuery.Some? && req.builds
  }

  /** The request's own path at the base address. */
  function Rewritten(base: BaseUri, req: Req): Uri
    requires Addressed(base, req)
  {
    Uri(base.scheme.value, base.authority.value, req.pathAndQuery.value)
  }

  class MasqueRequestSender {
    const base: BaseUri
    var sendRequest: Option<Connection>
    var driver: bool
    var channels: bool
    var attempt: bool
    var connectFailure: Option<ConnectError>

    function State(): Sender
      reads this
    {
      Sender(sendRequest, driver, channels, attempt, connectFailure)
    }

    constructor (base: BaseUri)
      ensures State() == NEW_SENDER && this.base == base
    {
      this.base := base;
      sendRequest, driver, channels, attempt, connectFailure := None, false, false, false, None;
    }

    method PollReady(driverPoll: DriverPoll, attemptPoll: AttemptPoll) returns (r: Poll)
      modifies this
      ensures (State(), r) == PollSender(old(State()), driverPoll, attemptPoll)
    {
      if driver {
        if driverPoll != Running {
          sendRequest := None;
          driver := false;
        }
      }
      if sendRequest.Some? {
        return Ready;
      }
      if !attempt {
        attempt := true;
      }
      match attemptPoll {
        case StillConnecting =>
          r := Pending;
        case Connected(conn) =>
          sendRequest := Some(conn);
          channels := true;
          driver := true;
          attempt := false;
          connectFailure := None;
          r := Ready;
        case ConnectFailed(e) =>
          attempt := false;
          connectFailure := Some(e);
          r := Ready;
      }
    }

    method Call(req: Req) returns (o: Outcome)
      modifies this
      ensures (State(), o) == CallSender(old(State()), base, req)
    {
      if connectFailure.Some? {
        o := ConnectFailure(connectFailure.value);
        connectFailure := None;
        return;
      }
      if sendRequest.None? || !channels {
        return Uninitialized;
      }
      if base.scheme.None? {
        return MissingScheme;
      }
      if base.authority.None? {
        return MissingAuthority;
      }
      if req.pathAndQuery.None? {
        return MissingPath;
      }
      if !req.builds {
        return UnbuildableUri;
      }
      o := Sent(sendRequest.value, Uri(base.scheme.value, base.authority.value, req.pathAndQuery.value));
    }
  }

  ghost predicate SenderInv(s: Sender)
  {
    && (s.sendRequest.Some? <==> s.driver)
    && (s.sendRequest.Some? ==> s.channels && !s.attempt && s.connectFailure.None?)
  }

  /** Polls and calls in any order, by anyone. */
  datatype SenderEvent = PollIt(driver: DriverPoll, attempt: AttemptPoll) | CallIt(req: Req)
  datatype SenderRun = SenderRun(sender: Sender, failedAttempts: nat, outcomes: seq<Outcome>)

  function SenderStep(r: SenderRun, base: BaseUri, e: SenderEvent): SenderRun
  {
    match e
    case PollIt(driver, attempt) =>
      r.(sender := PollSender(r.sender, driver, attempt).0,
         failedAttempts := r.failedAttempts + if AttemptFails(r.sender, driver, attempt) then 1 else 0)
    case CallIt(req) =>
      var (s, o) := CallSender(r.sender, base, req);
      r.(sender := s, outcomes := r.outcomes + [o])
  }

  /** A poll reaches the attempt only when there is no live connection. */
  predicate AttemptFails(s: Sender, driver: DriverPoll, attempt: AttemptPoll)
  {
    attempt.ConnectFailed? && (s.sendRequest.None? || (s.driver && driver != Running))
  }

  function RunSender(base: BaseUri, events: seq<SenderEvent>): SenderRun
    decreases |events|
  {
    if events == [] then SenderRun(NEW_SENDER, 0, [])
    else SenderStep(RunSender(base, events[..|events| - 1]), base, events[|events| - 1])
  }

  function Failures(outcomes: seq<Outcome>): nat
  {
    if outcomes == [] then 0
    else Failures(outcomes[..|outcomes| - 1]) + if outcomes[|outcomes| - 1].ConnectFailure? then 1 else 0
  }

  lemma FailuresPush(outcomes: seq<Outcome>, o: Outcome)
    ensures Failures(outcomes + [o]) == Failures(outcomes) + if o.ConnectFailure? then 1 else 0
  {
    assert (outcomes + [o])[..|outcomes|] == outcomes;
  }

  function Stored(s: Sender): nat
  {
    if s.connectFailure.Some? then 1 else 0
  }

  ghost predicate RunInv(r: SenderRun)
  {
    SenderInv(r.sender) && Failures(r.outcomes) + Stored(r.sender) <= r.failedAttempts
  }

  lemma SenderStepKeeps(r: SenderRun, base: BaseUri, e: SenderEvent)
    requires RunInv(r)
    ensures RunInv(SenderStep(r, base, e))
  {
    hide Failures;
    if e.CallIt? {
      FailuresPush(r.outcomes, CallSender(r.sender, base, e.req).1);
    }
  }

  /** In every reachable state a live connection and its driver handle come and go
      together, and with them neither an attempt nor a stored failure; and over any
      run no failed attempt is reported twice. */
  lemma {:induction false} SenderStaysConsistent(base: BaseUri, events: seq<SenderEvent>)
    ensures var r := RunSender(base, events);
            SenderInv(r.sender) && Failures(r.outcomes) + Stored(r.sender) <= r.failedAttempts
    decreases |events|
  {
    hide SenderStep;
    if events != [] {
      var front, last := events[..|events| - 1], events[|events| - 1];
      SenderStaysConsistent(base, front);
      SenderStepKeeps(RunSender(base, front), base, last);
    }
  }

  /** Whatever was reachable before, a call straight after a poll that reported
      ready is never refused for lack of a connection, and a poll never reports
      the service itself as failed. */
  lemma CallAfterReadyIsInitialized(base: BaseUri, events: seq<SenderEvent>, driver: DriverPoll, attempt: AttemptPoll, req: Req)
    ensures var (s, p) := PollSender(RunSender(base, events).sender, driver, attempt);
            && !p.NotReady?
            && (p.Ready? ==> !CallSender(s, base, req).1.Uninitialized?)
  {
    SenderStaysConsistent(base, events);
  }

  /** What a run records: every call's outcome, in order, and every attempt that failed
      because there was no live connection to answer the poll. */
  lemma RecordsAreKept(base: BaseUri, events: seq<SenderEvent>, driver: DriverPoll, attempt: AttemptPoll, req: Req)
    ensures RunSender(base, []) == SenderRun(Sender(None, false, false, false, None), 0, [])
    ensures var r, polled := RunSender(base, events), RunSender(base, events + [PollIt(driver, attempt)]);
            var live := r.sender.sendRequest.Some? && (!r.sender.driver || driver == Running);
            && polled.outcomes == r.outcomes
            && polled.failedAttempts == r.failedAttempts + (if attempt.ConnectFailed? && !live then 1 else 0)
    ensures var r, called := RunSender(base, events), RunSender(base, events + [CallIt(req)]);
            && called.outcomes == r.outcomes + [CallSender(r.sender, base, req).1]
            && called.failedAttempts == r.failedAttempts
  {
    assert (events + [PollIt(driver, attempt)])[..|events|] == events;
    assert (events + [CallIt(req)])[..|events|] == events;
  }

  /** In every reachable state a call comes to exactly one of these: the stored failure,
      no connection, a missing scheme, authority or path, an address that does not
      build, or the request on its way on the connection that stands. */
  lemma CallsAreToldApart(base: BaseUri, events: seq<SenderEvent>, req: Req)
    ensures var s := RunSender(base, events).sender;
            var (after, o) := CallSender(s, base, req);
            var ready := s.connectFailure.None? && s.sendRequest.Some?;
            && (o.ConnectFailure? <==> s.connectFailure.Some?)
            && (o.ConnectFailure? ==> o.error == s.connectFailure.value)
            && (o.Uninitialized? <==> s.connectFailure.None? && s.sendRequest.None?)
            && (o.MissingScheme? <==> ready && base.scheme.None?)
            && (o.MissingAuthority? <==> ready && base.scheme.Some? && base.authority.None?)
            && (o.MissingPath? <==> ready && base.scheme.Some? && base.authority.Some? && req.pathAndQuery.None?)
            && (o.UnbuildableUri? <==>
                  ready && base.scheme.Some? && base.authority.Some? && req.pathAndQuery.Some? && !req.builds)
            && (o.Sent? <==> ready && base.scheme.Some? && base.authority.Some? && req.pathAndQuery.Some? && req.builds)
            && (o.Sent? ==> Some(o.conn) == s.sendRequest && o.uri.pathAndQuery == req.pathAndQuery.value
                            && o.uri.scheme == base.scheme.value && o.uri.authority == base.authority.value)
            && after == s.(connectFailure := None)
  {
    hide RunSender;
    SenderStaysConsistent(base, events);
  }

  // ----- FailRequestNotService -----

  datatype Adapter = Adapter(failed: Option<ConnectError>)

  function PollAdapter(a: Adapter, inner: Poll): (Adapter, Poll)
  {
    match inner
    case Pending => (a, Pending)
    case Ready => (Adapter(None), Ready)
    case NotReady(e) => (Adapter(Some(e)), Ready)
  }

  /** A call on the adapter, when the inner service would answer `inner`. */
  function CallAdapter(a: Adapter, inner: Outcome): (Adapter, Outcome)
  {
    if a.failed.Some? then (Adapter(None), ConnectFailure(a.failed.value)) else (a, inner)
  }

  class FailRequestNotService {
    const inner: MasqueRequestSender
    var failed: Option<ConnectError>

    constructor (inner: MasqueRequestSender)
      ensures this.inner == inner && failed == None
    {
      this.inner, failed := inner, None;
    }

    method PollReady(driverPoll: DriverPoll, attemptPoll: AttemptPoll) returns (r: Poll)
      modifies this, inner
      ensures inner.State() == PollSender(old(inner.State()), driverPoll, attemptPoll).0
      ensures (Adapter(failed), r) ==
              PollAdapter(Adapter(old(failed)), PollSender(old(inner.State()), driverPoll, attemptPoll).1)
    {
      var p := inner.PollReady(driverPoll, attemptPoll);
      match p {
        case Pending =>
          r := Pending;
        case Ready =>
          failed := None;
          r := Ready;
        case NotReady(e) =>
          failed := Some(e);
          r := Ready;
      }
    }

    method Call(req: Req) returns (o: Outcome)
      modifies this, inner
      ensures failed == None
      ensures old(failed).Some? ==> o == ConnectFailure(old(failed).value) && inner.State() == old(inner.State())
      ensures old(failed).None? ==> (inner.State(), o) == CallSender(old(inner.State()), inner.base, req)
    {
      if failed.Some? {
        o := ConnectFailure(failed.value);
        failed := None;
        return;
      }
      o := inner.Call(req);
    }
  }

  // ----- tower::Buffer -----

  type Id = nat
  datatype Msg = Msg(id: Id, req: Req)
  datatype Answer = Served(outcome: Outcome) | BufferFailed(error: ConnectError)

  /** `discarded` are the requests whose caller had gone when their turn came. */
  datatype BufferState = BufferState(
    queue: seq<Msg>, current: Option<Msg>, failed: Option<ConnectError>, cancelled: set<Id>,
    answers: seq<(Id, Answer)>, discarded: seq<Id>)

  const NEW_BUFFER := BufferState([], None, None, {}, [], [])

  /** The worker's next live message, after dropping cancelled ones. */
  function Settle(b: BufferState): (r: BufferState)
    ensures r.current.Some? ==> r.current.value.id !in r.cancelled
    ensures r.current.None? ==> r.queue == []
    ensures r.failed == b.failed && r.answers == b.answers && r.cancelled == b.cancelled
    decreases |b.queue|, if b.current.Some? then 1 else 0
  {
    match b.current
    case Some(m) =>
      if m.id in b.cancelled then Settle(b.(current := None, discarded := b.discarded + [m.id])) else b
    case None =>
      if b.queue == [] then b else Settle(b.(current := Some(b.queue[0]), queue := b.queue[1..]))
  }

  /** Whether the worker will ask the service this turn. */
  predicate Asks(b: BufferState)
  {
    Settle(b).current.Some? && b.failed.None?
  }

  /** One turn of the worker; `poll` is the service's readiness and `outcome` what
      a call would return, were they asked for. */
  function BufferTurn(b: BufferState, poll: Poll, outcome: Outcome): BufferState
  {
    var s := Settle(b);
    if s.current.None? then s
    else
      var id := s.current.value.id;
      if s.failed.Some? then s.(current := None, answers := s.answers + [(id, BufferFailed(s.failed.value))])
      else match poll
        case Pending => s
        case Ready => s.(current := None, answers := s.answers + [(id, Served(outcome))])
        case NotReady(e) => s.(current := None, failed := Some(e), answers := s.answers + [(id, BufferFailed(e))])
  }

  /** A failed buffer refuses at the door. */
  function Submit(b: BufferState, m: Msg): BufferState
  {
    if b.failed.Some? then b.(answers := b.answers + [(m.id, BufferFailed(b.failed.value))])
    else b.(queue := b.queue + [m])
  }

  function Cancel(b: BufferState, id: Id): BufferState
  {
    b.(cancelled := b.cancelled + {id})
  }

  datatype BufferEvent = Ask(msg: Msg) | GiveUp(id: Id) | Work(poll: Poll, outcome: Outcome)

  function BufferStep(b: BufferState, e: BufferEvent): BufferState
  {
    match e
    case Ask(m) => Submit(b, m)
    case GiveUp(id) => Cancel(b, id)
    case Work(poll, outcome) => BufferTurn(b, poll, outcome)
  }

  function RunBuffer(b: BufferState, events: seq<BufferEvent>): BufferState
    decreases |events|
  {
    if events == [] then b else BufferStep(RunBuffer(b, events[..|events| - 1]), events[|events| - 1])
  }

  lemma StepLatches(b: BufferState, e: BufferEvent)
    ensures BufferStep(b, e).failed.Some? <==> b.failed.Some? || ToldNotReady(b, e)
  {}

  ghost predicate ToldAt(events: seq<BufferEvent>, i: nat)
    requires i < |events|
  {
    ToldNotReady(RunBuffer(NEW_BUFFER, events[..i]), events[i])
  }

  lemma ToldAtExtends(events: seq<BufferEvent>, i: nat)
    requires i < |events| - 1
    ensures ToldAt(events, i) <==> ToldAt(events[..|events| - 1], i)
  {
    assert events[..|events| - 1][..i] == events[..i];
  }

  /** Directly over a service: the buffer is failed at the end of a run exactly when
      some turn asked the service and was told it is not ready. */
  lemma {:induction false} LatchesExactlyOnReadinessFailure(events: seq<BufferEvent>)
    ensures RunBuffer(NEW_BUFFER, events).failed.Some? <==> exists i | 0 <= i < |events| :: ToldAt(events, i)
    decreases |events|
  {
    hide BufferStep, ToldNotReady;
    if events != [] {
      var n := |events| - 1;
      LatchesExactlyOnReadinessFailure(events[..n]);
      StepLatches(RunBuffer(NEW_BUFFER, events[..n]), events[n]);
      forall i | 0 <= i < n
        ensures ToldAt(events, i) <==> ToldAt(events[..n], i)
      {
        ToldAtExtends(events, i);
      }
      assert ToldAt(events, n) <==> ToldNotReady(RunBuffer(NEW_BUFFER, events[..n]), events[n]);
    }
  }

  ghost predicate ToldNotReady(b: BufferState, e: BufferEvent)
  {
    e.Work? && Asks(b) && e.poll.NotReady?
  }

  /** And then it stays failed: every answer from there on is that first error, and
      nothing reaches the service again. */
  lemma {:induction false} FailedForever(b: BufferState, events: seq<BufferEvent>)
    requires b.failed.Some?
    ensures var end := RunBuffer(b, events);
            && end.failed == b.failed
            && b.answers <= end.answers
            && (forall k | |b.answers| <= k < |end.answers| :: end.answers[k].1 == BufferFailed(b.failed.value))
            && !Asks(end)
    decreases |events|
  {
    if events != [] {
      FailedForever(b, events[..|events| - 1]);
    }
  }

  /** It is refused at the door too, with the same error, and not queued. */
  lemma FailedBufferRefuses(b: BufferState, m: Msg)
    requires b.failed.Some?
    ensures Submit(b, m) == b.(answers := b.answers + [(m.id, BufferFailed(b.failed.value))])
  {}

  // ----- The channel: buffer over adapter over sender -----

  datatype Channel = Channel(buffer: BufferState, adapter: Adapter, sender: Sender, failedAttempts: nat)
  datatype ChannelEvent =
    | Request(msg: Msg)
    | DropResponse(id: Id)
    | Turn(driver: DriverPoll, attempt: AttemptPoll)

  const NEW_CHANNEL := Channel(NEW_BUFFER, Adapter(None), NEW_SENDER, 0)

  function ChannelTurn(c: Channel, base: BaseUri, driver: DriverPoll, attempt: AttemptPoll): Channel
  {
    if !Asks(c.buffer) then c.(buffer := BufferTurn(c.buffer, Pending, Uninitialized))
    else
      var msg := Settle(c.buffer).current.value;
      var (s, p) := PollSender(c.sender, driver, attempt);
      var (a, q) := PollAdapter(c.adapter, p);
      var failures := c.failedAttempts + if AttemptFails(c.sender, driver, attempt) then 1 else 0;
      if !q.Ready? then Channel(BufferTurn(c.buffer, q, Uninitialized), a, s, failures)
      else if a.failed.Some? then
        Channel(BufferTurn(c.buffer, q, ConnectFailure(a.failed.value)), Adapter(None), s, failures)
      else
        var (s', o) := CallSender(s, base, msg.req);
        Channel(BufferTurn(c.buffer, q, o), a, s', failures)
  }

  function ChannelStep(c: Channel, base: BaseUri, e: ChannelEvent): Channel
  {
    match e
    case Request(m) => c.(buffer := Submit(c.buffer, m))
    case DropResponse(id) => c.(buffer := Cancel(c.buffer, id))
    case Turn(driver, attempt) => ChannelTurn(c, base, driver, attempt)
  }

  function RunChannel(base: BaseUri, events: seq<ChannelEvent>): Channel
    decreases |events|
  {
    if events == [] then NEW_CHANNEL
    else ChannelStep(RunChannel(base, events[..|events| - 1]), base, events[|events| - 1])
  }

  function Reported(answers: seq<(Id, Answer)>): nat
  {
    if answers == [] then 0
    else
      var last := answers[|answers| - 1].1;
      Reported(answers[..|answers| - 1]) + if last.Served? && last.outcome.ConnectFailure? then 1 else 0
  }

  /** A request's answer is about its own connection or its own address, never the
      buffer's epitaph and never a sender that was not set up. */
  ghost predicate Honest(a: Answer)
  {
    a.Served? && !a.outcome.Uninitialized?
  }

  ghost predicate ChannelInv(c: Channel)
  {
    && c.buffer.failed.None? && c.adapter.failed.None?
    && SenderInv(c.sender)
    && (forall k | 0 <= k < |c.buffer.answers| :: Honest(c.buffer.answers[k].1))
    && Reported(c.buffer.answers) + Stored(c.sender) <= c.failedAttempts
  }

  lemma ReportedPush(answers: seq<(Id, Answer)>, a: (Id, Answer))
    ensures Reported(answers + [a]) == Reported(answers) + if a.1.Served? && a.1.outcome.ConnectFailure? then 1 else 0
  {
    assert (answers + [a])[..|answers|] == answers;
  }

  lemma TurnKeepsChannelInv(c: Channel, base: BaseUri, driver: DriverPoll, attempt: AttemptPoll)
    requires ChannelInv(c)
    ensures ChannelInv(ChannelTurn(c, base, driver, attempt))
  {
    hide Settle, Reported;
    if Asks(c.buffer) {
      var msg := Settle(c.buffer).current.value;
      var (s, p) := PollSender(c.sender, driver, attempt);
      if p.Ready? {
        ReportedPush(c.buffer.answers, (msg.id, Served(CallSender(s, base, msg.req).1)));
      }
    }
  }

  /** Whatever connections fail, drivers end, requests come and callers leave, the
      channel never latches, and failures reported never exceed attempts failed. */
  lemma {:induction false} ChannelNeverLatches(base: BaseUri, events: seq<ChannelEvent>)
    ensures ChannelInv(RunChannel(base, events))
    decreases |events|
  {
    if events != [] {
      var front, last := events[..|events| - 1], events[|events| - 1];
      ChannelNeverLatches(base, front);
      if last.Turn? {
        TurnKeepsChannelInv(RunChannel(base, front), base, last.driver, last.attempt);
      }
    }
  }

  /** After any run whatsoever, the next live request is answered over the standing
      connection if its driver still runs, and over a new one as soon as an attempt
      succeeds: no past failure is held against it. */
  lemma LiveRequestReachesTheConnection(base: BaseUri, events: seq<ChannelEvent>, driver: DriverPoll, conn: Connection)
    requires var b := RunChannel(base, events).buffer;
             Settle(b).current.Some? && Addressed(base, Settle(b).current.value.req)
    ensures var c := RunChannel(base, events);
            var d := ChannelTurn(c, base, driver, Connected(conn));
            var used := if c.sender.sendRequest.Some? && driver == Running then c.sender.sendRequest.value else conn;
            var m := Settle(c.buffer).current.value;
            var uri := Uri(base.scheme.value, base.authority.value, m.req.pathAndQuery.value);
            && d.buffer.answers == c.buffer.answers + [(m.id, Served(Sent(used, uri)))]
            && d.sender.sendRequest == Some(used)
  {
    hide Settle, RunChannel;
    ChannelNeverLatches(base, events);
  }

  /** A failed attempt is one request's: the one in the worker's hand is told, the
      ones behind it keep their places, and nothing of it is kept. */
  lemma FailedAttemptChargesOneRequest(base: BaseUri, events: seq<ChannelEvent>, driver: DriverPoll, e: ConnectError)
    requires var c := RunChannel(base, events);
             Settle(c.buffer).current.Some? && AttemptFails(c.sender, driver, ConnectFailed(e))
    ensures var c := RunChannel(base, events);
            var d := ChannelTurn(c, base, driver, ConnectFailed(e));
            && d.buffer == Settle(c.buffer).(
                 current := None,
                 answers := c.buffer.answers + [(Settle(c.buffer).current.value.id, Served(ConnectFailure(e)))])
            && d.sender.sendRequest.None? && !d.sender.attempt && d.sender.connectFailure.None?
  {
    hide Settle, RunChannel;
    ChannelNeverLatches(base, events);
  }

  // ----- Whose attempt it was -----

  /** The attempt in flight: which one it is, the request it was begun for, and
      whether that request has been given up since. */
  datatype Flight = Flight(number: nat, starter: Id, left: bool)

  /** A failure told to a request, and the attempt it came from; inherited when the
      request did not begin that attempt itself. */
  datatype Charge = Charge(request: Id, error: ConnectError, attempt: nat, starter: Id, inherited: bool)

  datatype Books = Books(flight: Option<Flight>, begun: nat, charges: seq<Charge>)

  /** The worker drops the request in its hand when its caller has gone; the attempt
      it began stays behind. */
  function StarterLeaves(books: Books, b: BufferState): Books
  {
    if books.flight.Some? && b.current.Some? && b.current.value.id in b.cancelled then
      books.(flight := Some(books.flight.value.(left := true)))
    else books
  }

  /** A turn that needs a connection goes on with the attempt there is, or begins one
      for the request in hand. */
  function Record(books: Books, c: Channel, driver: DriverPoll, attempt: AttemptPoll): Books
  {
    var now := StarterLeaves(books, c.buffer);
    if !Asks(c.buffer) || (c.sender.sendRequest.Some? && (!c.sender.driver || driver == Running)) then now
    else
      var id := Settle(c.buffer).current.value.id;
      var begins := now.flight.None?;
      var f := if begins then Flight(now.begun, id, false) else now.flight.value;
      var begun := if begins then now.begun + 1 else now.begun;
      match attempt
      case StillConnecting => Books(Some(f), begun, now.charges)
      case Connected(_) => Books(None, begun, now.charges)
      case ConnectFailed(e) => Books(None, begun, now.charges + [Charge(id, e, f.number, f.starter, f.left)])
  }

  function Audit(base: BaseUri, events: seq<ChannelEvent>): Books
    decreases |events|
  {
    if events == [] then Books(None, 0, [])
    else
      var front, last := events[..|events| - 1], events[|events| - 1];
      var books := Audit(base, front);
      if last.Turn? then Record(books, RunChannel(base, front), last.driver, last.attempt) else books
  }

  /** The connection failures among the answers, in order. */
  function FailuresTold(answers: seq<(Id, Answer)>): seq<(Id, ConnectError)>
  {
    if answers == [] then []
    else
      var (id, a) := answers[|answers| - 1];
      FailuresTold(answers[..|answers| - 1])
      + (if a.Served? && a.outcome.ConnectFailure? then [(id, a.outcome.error)] else [])
  }

  function FailuresCharged(charges: seq<Charge>): seq<(Id, ConnectError)>
  {
    if charges == [] then []
    else FailuresCharged(charges[..|charges| - 1]) + [(charges[|charges| - 1].request, charges[|charges| - 1].error)]
  }

  /** Who left the attempts behind whose failures others were told of. */
  function Departed(charges: seq<Charge>): multiset<Id>
  {
    if charges == [] then multiset{}
    else
      Departed(charges[..|charges| - 1])
      + (if charges[|charges| - 1].inherited then multiset{charges[|charges| - 1].starter} else multiset{})
  }

  ghost predicate ChargesFine(charges: seq<Charge>, begun: nat)
  {
    && (forall k | 0 <= k < |charges| ::
          charges[k].attempt < begun && (charges[k].inherited || charges[k].starter == charges[k].request))
    && (forall j, k | 0 <= j < k < |charges| :: charges[j].attempt < charges[k].attempt)
  }

  /** The starter of the attempt in flight, once it has left. */
  function LeftBehind(books: Books): multiset<Id>
  {
    if books.flight.Some? && books.flight.value.left then multiset{books.flight.value.starter} else multiset{}
  }

  ghost predicate FlightFine(c: Channel, books: Books)
  {
    && (books.flight.Some? <==> c.sender.attempt)
    && (books.flight.Some? ==>
          var f := books.flight.value;
          && f.number < books.begun
          && (forall k | 0 <= k < |books.charges| :: books.charges[k].attempt < f.number)
          && (!f.left ==> c.buffer.current.Some? && c.buffer.current.value.id == f.starter))
  }

  ghost predicate BooksFine(c: Channel, books: Books)
  {
    && FlightFine(c, books)
    && ChargesFine(books.charges, books.begun)
    && FailuresTold(c.buffer.answers) == FailuresCharged(books.charges)
    && |books.charges| == c.failedAttempts
    && Departed(books.charges) + LeftBehind(books) <= multiset(c.buffer.discarded)
  }

  lemma ChargesPush(charges: seq<Charge>, x: Charge)
    ensures FailuresCharged(charges + [x]) == FailuresCharged(charges) + [(x.request, x.error)]
    ensures Departed(charges + [x]) == Departed(charges) + (if x.inherited then multiset{x.starter} else multiset{})
  {
    assert (charges + [x])[..|charges|] == charges;
  }

  lemma FailuresToldPush(answers: seq<(Id, Answer)>, a: (Id, Answer))
    ensures FailuresTold(answers + [a]) ==
            FailuresTold(answers) + (if a.1.Served? && a.1.outcome.ConnectFailure? then [(a.0, a.1.outcome.error)] else [])
  {
    assert (answers + [a])[..|answers|] == answers;
  }

  lemma {:induction false} SettleDiscards(b: BufferState)
    ensures multiset(b.discarded) <= multiset(Settle(b).discarded)
    ensures b.current.Some? && b.current.value.id in b.cancelled ==>
              multiset(b.discarded) + multiset{b.current.value.id} <= multiset(Settle(b).discarded)
    ensures b.current.Some? && b.current.value.id !in b.cancelled ==> Settle(b) == b
    decreases |b.queue|, if b.current.Some? then 1 else 0
  {
    match b.current
    case Some(m) =>
      if m.id in b.cancelled {
        SettleDiscards(b.(current := None, discarded := b.discarded + [m.id]));
      }
    case None =>
      if b.queue != [] {
        SettleDiscards(b.(current := Some(b.queue[0]), queue := b.queue[1..]));
      }
  }

  /** What a departure does to the books, before the turn goes on. */
  lemma SettleKeepsBooks(c: Channel, books: Books)
    requires BooksFine(c, books)
    ensures BooksFine(c.(buffer := Settle(c.buffer)), StarterLeaves(books, c.buffer))
  {
    hide Settle, FailuresTold, FailuresCharged, Departed, ChargesFine;
    SettleDiscards(c.buffer);
  }

  /** A turn that fails no attempt. */
  lemma OtherTurnKeepsBooks(c: Channel, books: Books, base: BaseUri, driver: DriverPoll, attempt: AttemptPoll)
    requires ChannelInv(c) && !AttemptFails(c.sender, driver, attempt)
    requires BooksFine(c.(buffer := Settle(c.buffer)), StarterLeaves(books, c.buffer))
    ensures BooksFine(ChannelTurn(c, base, driver, attempt), Record(books, c, driver, attempt))
  {
    hide Settle, FailuresTold, FailuresCharged, Departed, Reported, ChargesFine, StarterLeaves;
    var s, now := Settle(c.buffer), StarterLeaves(books, c.buffer);
    assert Record(books, c, driver, attempt).begun >= now.begun;
    MoreBegun(now.charges, now.begun, Record(books, c, driver, attempt).begun);
    if Asks(c.buffer) {
      var m := s.current.value;
      var (s', p) := PollSender(c.sender, driver, attempt);
      if p.Ready? {
        FailuresToldPush(s.answers, (m.id, Served(CallSender(s', base, m.req).1)));
        assert FailuresTold(s.answers) + [] == FailuresTold(s.answers);
      }
      if now.flight.None? {
        AllEarlier(now.charges, now.begun);
      }
    }
  }

  lemma MoreBegun(charges: seq<Charge>, begun: nat, more: nat)
    requires ChargesFine(charges, begun) && begun <= more
    ensures ChargesFine(charges, more)
  {}

  lemma AllEarlier(charges: seq<Charge>, begun: nat)
    requires ChargesFine(charges, begun)
    ensures forall k | 0 <= k < |charges| :: charges[k].attempt < begun
  {}

  /** A turn on which the attempt fails: the request in hand is told, and charged. */
  lemma FailedTurnKeepsBooks(c: Channel, books: Books, base: BaseUri, driver: DriverPoll, e: ConnectError)
    requires ChannelInv(c) && AttemptFails(c.sender, driver, ConnectFailed(e)) && Asks(c.buffer)
    requires BooksFine(c.(buffer := Settle(c.buffer)), StarterLeaves(books, c.buffer))
    ensures BooksFine(ChannelTurn(c, base, driver, ConnectFailed(e)), Record(books, c, driver, ConnectFailed(e)))
  {
    hide Settle, FailuresTold, FailuresCharged, Departed, Reported, StarterLeaves;
    var s, now := Settle(c.buffer), StarterLeaves(books, c.buffer);
    var m := s.current.value;
    var f := if now.flight.None? then Flight(now.begun, m.id, false) else now.flight.value;
    var d := ChannelTurn(c, base, driver, ConnectFailed(e));
    assert d.buffer.answers == s.answers + [(m.id, Served(ConnectFailure(e)))] && d.buffer.discarded == s.discarded;
    hide ChannelInv, BufferTurn, PollSender, CallSender, ChannelTurn;
    FailuresToldPush(s.answers, (m.id, Served(ConnectFailure(e))));
    ChargesPush(now.charges, Charge(m.id, e, f.number, f.starter, f.left));
  }

  lemma TurnKeepsBooks(c: Channel, books: Books, base: BaseUri, driver: DriverPoll, attempt: AttemptPoll)
    requires ChannelInv(c) && BooksFine(c, books)
    ensures BooksFine(ChannelTurn(c, base, driver, attempt), Record(books, c, driver, attempt))
  {
    hide BooksFine, ChannelInv, Settle, StarterLeaves, BufferTurn;
    SettleKeepsBooks(c, books);
    if !AttemptFails(c.sender, driver, attempt) {
      OtherTurnKeepsBooks(c, books, base, driver, attempt);
    } else if Asks(c.buffer) {
      FailedTurnKeepsBooks(c, books, base, driver, attempt.error);
    } else {
      IdleTurn(c, base, driver, attempt);
    }
  }

  lemma IdleTurn(c: Channel, base: BaseUri, driver: DriverPoll, attempt: AttemptPoll)
    requires ChannelInv(c) && !Asks(c.buffer)
    ensures ChannelTurn(c, base, driver, attempt) == c.(buffer := Settle(c.buffer))
  {}

  lemma {:induction false} AuditHolds(base: BaseUri, events: seq<ChannelEvent>)
    ensures BooksFine(RunChannel(base, events), Audit(base, events))
    decreases |events|
  {
    hide BooksFine, ChannelTurn, Record, RunChannel;
    if events == [] {
      NothingInTheBooks(base);
    } else {
      var front, last := events[..|events| - 1], events[|events| - 1];
      AuditHolds(base, front);
      ChannelNeverLatches(base, front);
      RunChannelStep(base, events);
      if last.Turn? {
        TurnKeepsBooks(RunChannel(base, front), Audit(base, front), base, last.driver, last.attempt);
      } else {
        CallersKeepBooks(RunChannel(base, front), Audit(base, front), base, last);
      }
    }
  }

  lemma NothingInTheBooks(base: BaseUri)
    ensures BooksFine(RunChannel(base, []), Audit(base, []))
    ensures Audit(base, []) == Books(None, 0, [])
  {}

  lemma CallersKeepBooks(c: Channel, books: Books, base: BaseUri, e: ChannelEvent)
    requires BooksFine(c, books) && ChannelInv(c) && !e.Turn?
    ensures BooksFine(ChannelStep(c, base, e), books)
  {
    hide FailuresTold, FailuresCharged, Departed, ChargesFine;
  }

  /** Over any run: the connection failures told are, in order, those of the attempts
      that failed, one each and no attempt's twice; each came from an attempt begun for
      the very request that was told, or was left behind by a request since dropped;
      and those left behind cost no more failures than there were such requests. */
  lemma EveryFailureHasItsAttempt(base: BaseUri, events: seq<ChannelEvent>)
    ensures var c, books := RunChannel(base, events), Audit(base, events);
            && FailuresTold(c.buffer.answers) == FailuresCharged(books.charges)
            && |books.charges| == c.failedAttempts
            && (forall k | 0 <= k < |books.charges| ::
                  books.charges[k].inherited || books.charges[k].starter == books.charges[k].request)
            && (forall j, k | 0 <= j < k < |books.charges| :: books.charges[j].attempt < books.charges[k].attempt < books.begun)
            && Departed(books.charges) <= multiset(c.buffer.discarded)
  {
    AuditHolds(base, events);
  }

  /** And the one told after that gets an attempt of its own: once a turn has failed,
      nothing is in flight, and the next live request's turn begins a new attempt. */
  lemma NextAttemptIsFresh(base: BaseUri, events: seq<ChannelEvent>, driver: DriverPoll, e: ConnectError,
                           nextDriver: DriverPoll, nextAttempt: AttemptPoll)
    requires var c := RunChannel(base, events);
             Asks(c.buffer) && AttemptFails(c.sender, driver, ConnectFailed(e))
    requires Asks(ChannelTurn(RunChannel(base, events), base, driver, ConnectFailed(e)).buffer)
    ensures var c, books := RunChannel(base, events), Audit(base, events);
            var d, after := ChannelTurn(c, base, driver, ConnectFailed(e)), Record(books, c, driver, ConnectFailed(e));
            var next := Settle(d.buffer).current.value.id;
            var then' := Record(after, d, nextDriver, nextAttempt);
            && after.flight.None? && then'.begun == after.begun + 1
            && (nextAttempt.StillConnecting? ==> then'.flight == Some(Flight(after.begun, next, false)))
            && (nextAttempt.ConnectFailed? ==>
                  then'.charges == after.charges + [Charge(next, nextAttempt.error, after.begun, next, false)])
  {
    hide Settle, RunChannel, Audit;
    ChannelNeverLatches(base, events);
    AuditHolds(base, events);
  }

  /** The adapter does this for any service at all: whatever readiness the inner
      service reports and whatever its calls return, a buffer above never fails. */
  datatype AdaptedEvent = AskIt(msg: Msg) | Leave(id: Id) | WorkIt(inner: Poll, innerOutcome: Outcome)

  function AdaptedStep(b: BufferState, a: Adapter, e: AdaptedEvent): (BufferState, Adapter)
  {
    match e
    case AskIt(m) => (Submit(b, m), a)
    case Leave(id) => (Cancel(b, id), a)
    case WorkIt(inner, outcome) =>
      if !Asks(b) then (BufferTurn(b, Pending, outcome), a)
      else
        var (a', p) := PollAdapter(a, inner);
        if !p.Ready? then (BufferTurn(b, p, outcome), a')
        else
          var (a'', o) := CallAdapter(a', outcome);
          (BufferTurn(b, p, o), a'')
  }

  function RunAdapted(events: seq<AdaptedEvent>): (BufferState, Adapter)
    decreases |events|
  {
    if events == [] then (NEW_BUFFER, Adapter(None))
    else
      var (b, a) := RunAdapted(events[..|events| - 1]);
      AdaptedStep(b, a, events[|events| - 1])
  }

  lemma {:induction false} AdaptedNeverLatches(events: seq<AdaptedEvent>)
    ensures RunAdapted(events).0.failed.None? && RunAdapted(events).1.failed.None?
    decreases |events|
  {
    if events != [] {
      AdaptedNeverLatches(events[..|events| - 1]);
    }
  }

  /** And it serves: a request in hand is answered by the inner service once that is
      ready, and told its own failure if it is not. */
  lemma AdaptedServes(events: seq<AdaptedEvent>, inner: Poll, outcome: Outcome)
    requires Asks(RunAdapted(events).0)
    ensures var (b, a) := RunAdapted(events);
            var id := Settle(b).current.value.id;
            var answers := AdaptedStep(b, a, WorkIt(inner, outcome)).0.answers;
            answers == match inner
                       case Pending => b.answers
                       case Ready => b.answers + [(id, Served(outcome))]
                       case NotReady(e) => b.answers + [(id, Served(ConnectFailure(e)))]
  {
    hide Settle, RunAdapted;
    AdaptedNeverLatches(events);
  }

  /** Whatever uses the adapter, a buffer or not: readiness asked any number of times,
      calls in between. */
  datatype AdapterUse = Polled(inner: Poll) | Called

  function AdapterAfter(history: seq<AdapterUse>): Adapter
  {
    if history == [] then Adapter(None)
    else
      var a := AdapterAfter(history[..|history| - 1]);
      match history[|history| - 1]
      case Polled(inner) => PollAdapter(a, inner).0
      case Called => CallAdapter(a, Uninitialized).0
  }

  /** `history[i]` told of this failure, and nothing since has answered it. */
  ghost predicate Unanswered(history: seq<AdapterUse>, i: nat, e: ConnectError)
    requires i < |history|
  {
    history[i] == Polled(NotReady(e)) && forall j | i < j < |history| :: history[j] == Polled(Pending)
  }

  /** After any use of the adapter, the next call fails with a kept failure exactly
      when that is what readiness last said, with neither a call nor a success since;
      otherwise it is the inner service that answers. */
  lemma CallFailsExactlyByItsOwnPoll(history: seq<AdapterUse>, e: ConnectError, inner: Outcome)
    requires inner != ConnectFailure(e)
    ensures CallAdapter(AdapterAfter(history), inner).1 == ConnectFailure(e) <==>
            exists i | 0 <= i < |history| :: Unanswered(history, i, e)
  {
    hide CallAdapter;
    KeptIsUnanswered(history, e);
    CallTakesWhatIsKept(AdapterAfter(history), inner);
  }

  lemma CallTakesWhatIsKept(a: Adapter, inner: Outcome)
    ensures CallAdapter(a, inner) == (Adapter(None), if a.failed.Some? then ConnectFailure(a.failed.value) else inner)
  {}

  lemma {:induction false} KeptIsUnanswered(history: seq<AdapterUse>, e: ConnectError)
    ensures AdapterAfter(history).failed == Some(e) <==> exists i | 0 <= i < |history| :: Unanswered(history, i, e)
  {
    if history != [] {
      var n := |history| - 1;
      var front := history[..n];
      KeptIsUnanswered(front, e);
      forall i | 0 <= i < n
        ensures Unanswered(history, i, e) <==> Unanswered(front, i, e) && history[n] == Polled(Pending)
      {
        assert forall j | 0 <= j < n :: front[j] == history[j];
      }
      assert Unanswered(history, n, e) <==> history[n] == Polled(NotReady(e));
    }
  }

  // ----- In the order they were made -----

  /** The requests the worker has yet to serve, oldest first. */
  function Live(b: BufferState): seq<Msg>
  {
    NotCancelled((if b.current.Some? then [b.current.value] else []) + b.queue, b.cancelled)
  }

  function NotCancelled(msgs: seq<Msg>, cancelled: set<Id>): seq<Msg>
  {
    if msgs == [] then []
    else (if msgs[0].id in cancelled then [] else [msgs[0]]) + NotCancelled(msgs[1..], cancelled)
  }

  lemma {:induction false} SettleKeepsLive(b: BufferState)
    ensures Live(Settle(b)) == Live(b)
    ensures Settle(b).current.Some? <==> Live(b) != []
    ensures var s := Settle(b);
            s.current.Some? ==> Live(b) == [s.current.value] + NotCancelled(s.queue, s.cancelled)
    decreases |b.queue|, if b.current.Some? then 1 else 0
  {
    hide NotCancelled;
    match b.current
    case Some(m) =>
      NotCancelledCons(m, b.queue, b.cancelled);
      if m.id in b.cancelled {
        assert [] + b.queue == b.queue;
        SettleKeepsLive(b.(current := None, discarded := b.discarded + [m.id]));
      }
    case None =>
      assert [] + b.queue == b.queue;
      if b.queue == [] {
        NobodyLeft(b.cancelled);
      } else {
        assert [b.queue[0]] + b.queue[1..] == b.queue;
        SettleKeepsLive(b.(current := Some(b.queue[0]), queue := b.queue[1..]));
      }
  }

  lemma NotCancelledCons(m: Msg, rest: seq<Msg>, cancelled: set<Id>)
    ensures NotCancelled([m] + rest, cancelled) ==
            (if m.id in cancelled then [] else [m]) + NotCancelled(rest, cancelled)
  {
    assert ([m] + rest)[1..] == rest;
  }

  lemma NobodyLeft(cancelled: set<Id>)
    ensures NotCancelled([], cancelled) == []
  {}

  datatype Resolved = Resolved(driver: DriverPoll, attempt: AttemptPoll)

  /** Turns on which an attempt, where one is needed, comes to an end. */
  ghost predicate AllResolved(turns: seq<Resolved>)
  {
    forall t | t in turns :: !t.attempt.StillConnecting?
  }

  function Turns(c: Channel, base: BaseUri, turns: seq<Resolved>): Channel
    decreases |turns|
  {
    if turns == [] then c
    else
      var last := turns[|turns| - 1];
      ChannelTurn(Turns(c, base, turns[..|turns| - 1]), base, last.driver, last.attempt)
  }

  lemma TurnServesTheOldest(c: Channel, base: BaseUri, t: Resolved)
    requires ChannelInv(c) && Live(c.buffer) != [] && !t.attempt.StillConnecting?
    ensures var d := ChannelTurn(c, base, t.driver, t.attempt);
            var m := Live(c.buffer)[0];
            && ChannelInv(d)
            && Live(d.buffer) == Live(c.buffer)[1..]
            && |d.buffer.answers| == |c.buffer.answers| + 1
            && c.buffer.answers == d.buffer.answers[..|c.buffer.answers|]
            && d.buffer.answers[|c.buffer.answers|].0 == m.id
            && Answers(base, m.req, t, d.buffer.answers[|c.buffer.answers|].1)
  {
    hide Settle, NotCancelled, ChannelInv;
    SettleKeepsLive(c.buffer);
    TurnKeepsChannelInv(c, base, t.driver, t.attempt);
    var s := Settle(c.buffer);
    assert Live(c.buffer)[1..] == NotCancelled(s.queue, s.cancelled);
    ServedByTurn(c, base, t);
    assert [] + s.queue == s.queue;
  }

  lemma ServedByTurn(c: Channel, base: BaseUri, t: Resolved)
    requires ChannelInv(c) && Settle(c.buffer).current.Some? && !t.attempt.StillConnecting?
    ensures var d := ChannelTurn(c, base, t.driver, t.attempt);
            var s := Settle(c.buffer);
            && d.buffer.current.None? && d.buffer.queue == s.queue && d.buffer.cancelled == s.cancelled
            && exists a :: d.buffer.answers == c.buffer.answers + [(s.current.value.id, a)] && Answers(base, s.current.value.req, t, a)
  {
    hide Settle, Reported;
    var m := Settle(c.buffer).current.value;
    var (s, p) := PollSender(c.sender, t.driver, t.attempt);
    var a := Served(CallSender(s, base, m.req).1);
    assert ChannelTurn(c, base, t.driver, t.attempt).buffer.answers == c.buffer.answers + [(m.id, a)];
    assert Answers(base, m.req, t, a);
  }

  /** The parts a request needs before it can be sent anywhere. */
  ghost predicate HasAddress(base: BaseUri, req: Req)
  {
    base.scheme.Some? && base.authority.Some? && req.pathAndQuery.Some? && req.builds
  }

  /** The base's scheme and authority, with the path and query the request was made for. */
  ghost predicate GoesTo(base: BaseUri, req: Req, uri: Uri)
  {
    && Some(uri.scheme) == base.scheme && Some(uri.authority) == base.authority
    && Some(uri.pathAndQuery) == req.pathAndQuery
  }

  /** What a request may be told on such a turn: if its attempt succeeds and it has an
      address it is sent, whatever became of those before it; if the attempt fails it
      may be told so, unless a connection was standing. */
  ghost predicate Answers(base: BaseUri, req: Req, t: Resolved, a: Answer)
  {
    && Honest(a)
    && (t.attempt.Connected? && HasAddress(base, req) ==> a.outcome.Sent?)
    && (a.outcome.Sent? ==> HasAddress(base, req) && GoesTo(base, req, a.outcome.uri))
    && (a.outcome.ConnectFailure? ==> t.attempt == ConnectFailed(a.outcome.error))
  }

  /** After any run, `n` such turns answer exactly the `n` oldest live requests, in
      the order they were made: the one at place `i` on turn `i`, sent if that turn's
      attempt succeeds, whatever the turns before it came to. */
  lemma {:induction false} QueueIsServedInOrder(base: BaseUri, events: seq<ChannelEvent>, turns: seq<Resolved>)
    requires AllResolved(turns) && |turns| <= |Live(RunChannel(base, events).buffer)|
    ensures var c := RunChannel(base, events);
            var d := Turns(c, base, turns);
            && ChannelInv(d)
            && Live(d.buffer) == Live(c.buffer)[|turns|..]
            && |d.buffer.answers| == |c.buffer.answers| + |turns|
            && c.buffer.answers == d.buffer.answers[..|c.buffer.answers|]
            && forall i | 0 <= i < |turns| ::
                 var (id, a) := d.buffer.answers[|c.buffer.answers| + i];
                 id == Live(c.buffer)[i].id && Answers(base, Live(c.buffer)[i].req, turns[i], a)
    decreases |turns|
  {
    hide Live, ChannelTurn, RunChannel, ChannelInv, Answers;
    var c := RunChannel(base, events);
    if turns == [] {
      ChannelNeverLatches(base, events);
    } else {
      var n := |turns| - 1;
      assert forall t | t in turns[..n] :: t in turns;
      QueueIsServedInOrder(base, events, turns[..n]);
      var before := Turns(c, base, turns[..n]);
      TurnServesTheOldest(before, base, turns[n]);
      assert Live(before.buffer)[0] == Live(c.buffer)[n];
      assert Live(c.buffer)[n..][1..] == Live(c.buffer)[n + 1..];
      var end := Turns(c, base, turns);
      assert before.buffer.answers == end.buffer.answers[..|before.buffer.answers|];
      assert forall k | 0 <= k < |before.buffer.answers| :: end.buffer.answers[k] == before.buffer.answers[k];
    }
  }

  function Ids(msgs: seq<Msg>): seq<Id>
  {
    if msgs == [] then [] else [msgs[0].id] + Ids(msgs[1..])
  }

  function Answered(answers: seq<(Id, Answer)>): seq<Id>
  {
    if answers == [] then [] else Answered(answers[..|answers| - 1]) + [answers[|answers| - 1].0]
  }

  /** `xs` can be read off `ys` from left to right. */
  predicate SubsequenceOf(xs: seq<Id>, ys: seq<Id>)
    decreases |ys|
  {
    if xs == [] then true
    else if ys == [] then false
    else
      var (xs', ys') := (xs[..|xs| - 1], ys[..|ys| - 1]);
      SubsequenceOf(xs, ys') || (xs[|xs| - 1] == ys[|ys| - 1] && SubsequenceOf(xs', ys'))
  }

  /** Each has its place in `ys`, one after the other. */
  lemma {:induction false} SubsequenceHasPlaces(xs: seq<Id>, ys: seq<Id>) returns (at: seq<nat>)
    requires SubsequenceOf(xs, ys)
    ensures |at| == |xs| && forall k | 0 <= k < |xs| :: at[k] < |ys| && ys[at[k]] == xs[k]
    ensures forall j, k | 0 <= j < k < |xs| :: at[j] < at[k]
    decreases |ys|
  {
    if xs == [] {
      at := [];
    } else {
      var (xs', ys') := (xs[..|xs| - 1], ys[..|ys| - 1]);
      if SubsequenceOf(xs, ys') {
        at := SubsequenceHasPlaces(xs, ys');
      } else {
        at := SubsequenceHasPlaces(xs', ys');
        at := at + [|ys| - 1];
      }
    }
  }

  lemma SubsequencePush(xs: seq<Id>, ys: seq<Id>, id: Id)
    requires SubsequenceOf(xs, ys)
    ensures SubsequenceOf(xs, ys + [id]) && SubsequenceOf(xs + [id], ys + [id])
  {
    assert (ys + [id])[..|ys|] == ys && (xs + [id])[..|xs|] == xs;
  }

  /** The requests with the worker and behind it. */
  function Waiting(b: BufferState): seq<Id>
  {
    (if b.current.Some? then [b.current.value.id] else []) + Ids(b.queue)
  }

  /** Of all requests made the last ones wait, and the answers so far went to some of
      the others in the order they were made. */
  ghost predicate InOrder(b: BufferState, made: seq<Id>)
  {
    && |Waiting(b)| <= |made|
    && made[|made| - |Waiting(b)|..] == Waiting(b)
    && SubsequenceOf(Answered(b.answers), made[..|made| - |Waiting(b)|])
  }

  function RequestedInOrder(events: seq<ChannelEvent>): seq<Id>
  {
    if events == [] then []
    else
      RequestedInOrder(events[..|events| - 1])
      + (if events[|events| - 1].Request? then [events[|events| - 1].msg.id] else [])
  }

  lemma {:induction false} IdsAppend(msgs: seq<Msg>, m: Msg)
    ensures Ids(msgs + [m]) == Ids(msgs) + [m.id]
  {
    if msgs == [] {
      assert msgs + [m] == [m];
      assert [m][1..] == [];
    } else {
      assert (msgs + [m])[1..] == msgs[1..] + [m];
      IdsAppend(msgs[1..], m);
    }
  }

  lemma {:induction false} SettleKeepsOrder(b: BufferState, made: seq<Id>)
    requires InOrder(b, made)
    ensures InOrder(Settle(b), made)
    decreases |b.queue|, if b.current.Some? then 1 else 0
  {
    hide SubsequenceOf, Answered;
    match b.current
    case Some(m) =>
      if m.id in b.cancelled {
        var next := b.(current := None, discarded := b.discarded + [m.id]);
        HeadLeaves(b, next, made);
        SettleKeepsOrder(next, made);
      }
    case None =>
      if b.queue != [] {
        var next := b.(current := Some(b.queue[0]), queue := b.queue[1..]);
        assert Waiting(next) == Waiting(b);
        SettleKeepsOrder(next, made);
      }
  }

  lemma HeadLeaves(b: BufferState, next: BufferState, made: seq<Id>)
    requires InOrder(b, made) && b.current.Some? && next.current.None? && next.queue == b.queue
    requires next.answers == b.answers
             || exists a :: next.answers == b.answers + [(b.current.value.id, a)]
    ensures InOrder(next, made)
  {
    hide SubsequenceOf, Answered, Ids;
    var id := b.current.value.id;
    var n := |made| - |Waiting(b)|;
    assert made[n] == made[n..][0] == id;
    assert made[..n + 1] == made[..n] + [id];
    assert made[n + 1..] == made[n..][1..] == Waiting(next);
    SubsequencePush(Answered(b.answers), made[..n], id);
    if next.answers != b.answers {
      var a :| next.answers == b.answers + [(id, a)];
      AnsweredAppend(b.answers, (id, a));
    }
  }

  lemma AnsweredAppend(answers: seq<(Id, Answer)>, a: (Id, Answer))
    ensures Answered(answers + [a]) == Answered(answers) + [a.0]
  {
    assert (answers + [a])[..|answers|] == answers;
  }

  lemma TurnKeepsOrder(b: BufferState, poll: Poll, outcome: Outcome, made: seq<Id>)
    requires InOrder(b, made)
    ensures InOrder(BufferTurn(b, poll, outcome), made)
  {
    hide Settle, InOrder;
    SettleKeepsOrder(b, made);
    var s := Settle(b);
    var next := BufferTurn(b, poll, outcome);
    if s.current.Some? && next != s {
      assert next.answers[|next.answers| - 1].0 == s.current.value.id;
      assert next.answers == s.answers + [(s.current.value.id, next.answers[|next.answers| - 1].1)];
      HeadLeaves(s, next, made);
    }
  }

  /** In particular two live requests for different paths are sent to different
      addresses, each to its own. */
  lemma DifferentPathsStayApart(base: BaseUri, events: seq<ChannelEvent>, turns: seq<Resolved>, i: nat, j: nat)
    requires AllResolved(turns) && |turns| <= |Live(RunChannel(base, events).buffer)|
    requires i < |turns| && j < |turns|
    requires var live := Live(RunChannel(base, events).buffer);
             && HasAddress(base, live[i].req) && HasAddress(base, live[j].req)
             && live[i].req.pathAndQuery != live[j].req.pathAndQuery
             && turns[i].attempt.Connected? && turns[j].attempt.Connected?
    ensures var c := RunChannel(base, events);
            var n, all := |c.buffer.answers|, Turns(c, base, turns).buffer.answers;
            && |all| == n + |turns|
            && var answers := all[n..];
            && answers[i].1.Served? && answers[j].1.Served?
            && answers[i].1.outcome.Sent? && answers[j].1.outcome.Sent?
            && Some(answers[i].1.outcome.uri.pathAndQuery) == Live(c.buffer)[i].req.pathAndQuery
            && answers[i].1.outcome.uri != answers[j].1.outcome.uri
  {
    hide Live, ChannelTurn, RunChannel, ChannelInv, Turns;
    QueueIsServedInOrder(base, events, turns);
    var c := RunChannel(base, events);
    var all := Turns(c, base, turns).buffer.answers;
    assert all[|c.buffer.answers|..][i] == all[|c.buffer.answers| + i];
    assert all[|c.buffer.answers|..][j] == all[|c.buffer.answers| + j];
  }

  /** Over any run, whoever gave up: answers come in the order of the requests, and
      those not yet reached wait in that order. */
  lemma {:induction false} AnswersComeInOrder(base: BaseUri, events: seq<ChannelEvent>)
    ensures InOrder(RunChannel(base, events).buffer, RequestedInOrder(events))
    decreases |events|
  {
    hide InOrder, BufferTurn, RunChannel;
    if events == [] {
      NothingInOrder(base);
    } else {
      var front, last := events[..|events| - 1], events[|events| - 1];
      var c := RunChannel(base, front);
      var made := RequestedInOrder(front);
      AnswersComeInOrder(base, front);
      ChannelNeverLatches(base, front);
      RunChannelStep(base, events);
      assert made + [] == made;
      match last
      case Request(m) => SubmitKeepsOrder(c.buffer, m, made);
      case DropResponse(id) => CancelKeepsOrder(c.buffer, id, made);
      case Turn(driver, attempt) => ChannelTurnKeepsOrder(c, base, driver, attempt, made);
    }
  }

  lemma NothingInOrder(base: BaseUri)
    ensures InOrder(RunChannel(base, []).buffer, [])
  {}

  lemma RunChannelStep(base: BaseUri, events: seq<ChannelEvent>)
    requires events != []
    ensures RunChannel(base, events) ==
            ChannelStep(RunChannel(base, events[..|events| - 1]), base, events[|events| - 1])
  {}

  lemma SubmitKeepsOrder(b: BufferState, m: Msg, made: seq<Id>)
    requires InOrder(b, made) && b.failed.None?
    ensures InOrder(Submit(b, m), made + [m.id])
  {
    hide SubsequenceOf, Answered, Ids;
    IdsAppend(b.queue, m);
    var n := |made| - |Waiting(b)|;
    assert Waiting(Submit(b, m)) == Waiting(b) + [m.id];
    assert (made + [m.id])[n..] == made[n..] + [m.id];
    assert (made + [m.id])[..n] == made[..n];
  }

  lemma CancelKeepsOrder(b: BufferState, id: Id, made: seq<Id>)
    requires InOrder(b, made)
    ensures InOrder(Cancel(b, id), made)
  {}

  lemma ChannelTurnKeepsOrder(c: Channel, base: BaseUri, driver: DriverPoll, attempt: AttemptPoll, made: seq<Id>)
    requires InOrder(c.buffer, made)
    ensures InOrder(ChannelTurn(c, base, driver, attempt).buffer, made)
  {
    hide InOrder, BufferTurn;
    TurnKeepsOrder(c.buffer, Pending, Uninitialized, made);
    if Asks(c.buffer) {
      var msg := Settle(c.buffer).current.value;
      var (s, p) := PollSender(c.sender, driver, attempt);
      var (a, q) := PollAdapter(c.adapter, p);
      TurnKeepsOrder(c.buffer, q, Uninitialized, made);
      TurnKeepsOrder(c.buffer, q, CallSender(s, base, msg.req).1, made);
      if a.failed.Some? {
        TurnKeepsOrder(c.buffer, q, ConnectFailure(a.failed.value), made);
      }
    }
  }

  // ----- Those who gave up -----

  /** Who has given up in these events. */
  function GaveUp(events: seq<ChannelEvent>): set<Id>
  {
    if events == [] then {}
    else GaveUp(events[..|events| - 1]) + (if events[|events| - 1].DropResponse? then {events[|events| - 1].id} else {})
  }

  lemma {:induction false} CancelledAreThoseWhoGaveUp(base: BaseUri, events: seq<ChannelEvent>)
    ensures RunChannel(base, events).buffer.cancelled == GaveUp(events)
    decreases |events|
  {
    hide Settle;
    if events != [] {
      CancelledAreThoseWhoGaveUp(base, events[..|events| - 1]);
    }
  }

  lemma {:induction false} GaveUpGrows(events: seq<ChannelEvent>, later: seq<ChannelEvent>)
    ensures GaveUp(events) <= GaveUp(events + later)
    decreases |later|
  {
    if later == [] {
      assert events + later == events;
    } else {
      assert (events + later)[..|events + later| - 1] == events + later[..|later| - 1];
      GaveUpGrows(events, later[..|later| - 1]);
    }
  }

  /** A request whose caller has gone is not answered any more, however the run goes
      on: what is answered later is answered to others. */
  lemma {:induction false} GivenUpIsNeverAnswered(base: BaseUri, events: seq<ChannelEvent>, later: seq<ChannelEvent>)
    ensures var b, end := RunChannel(base, events).buffer, RunChannel(base, events + later).buffer;
            && b.answers <= end.answers
            && forall k | |b.answers| <= k < |end.answers| :: end.answers[k].0 !in GaveUp(events)
    decreases |later|
  {
    hide RunChannel, GaveUp, ChannelStep;
    if later == [] {
      assert events + later == events;
    } else {
      var front, last := events + later[..|later| - 1], later[|later| - 1];
      assert (events + later)[..|events + later| - 1] == front;
      GivenUpIsNeverAnswered(base, events, later[..|later| - 1]);
      RunChannelStep(base, events + later);
      ChannelNeverLatches(base, front);
      CancelledAreThoseWhoGaveUp(base, front);
      GaveUpGrows(events, later[..|later| - 1]);
      StepAnswersTheLiving(RunChannel(base, front), base, last);
    }
  }

  lemma StepAnswersTheLiving(c: Channel, base: BaseUri, e: ChannelEvent)
    requires ChannelInv(c)
    ensures var a, a' := c.buffer.answers, ChannelStep(c, base, e).buffer.answers;
            a' == a || (|a'| == |a| + 1 && a <= a' && a'[|a|].0 !in c.buffer.cancelled)
  {
    hide Settle;
  }

  // ----- Nothing is lost -----

  /** Where every request ever made is now. */
  function Whereabouts(b: BufferState): multiset<Id>
  {
    multiset(Ids(b.queue)) + (if b.current.Some? then multiset{b.current.value.id} else multiset{})
    + multiset(Answered(b.answers)) + multiset(b.discarded)
  }

  function Requested(events: seq<ChannelEvent>): multiset<Id>
  {
    if events == [] then multiset{}
    else
      Requested(events[..|events| - 1])
      + (if events[|events| - 1].Request? then multiset{events[|events| - 1].msg.id} else multiset{})
  }

  lemma IdsPush(msgs: seq<Msg>, m: Msg)
    ensures multiset(Ids(msgs + [m])) == multiset(Ids(msgs)) + multiset{m.id}
  {
    IdsAppend(msgs, m);
  }

  lemma AnsweredPush(answers: seq<(Id, Answer)>, a: (Id, Answer))
    ensures multiset(Answered(answers + [a])) == multiset(Answered(answers)) + multiset{a.0}
  {
    AnsweredAppend(answers, a);
  }

  lemma {:induction false} SettleLosesNothing(b: BufferState)
    ensures Whereabouts(Settle(b)) == Whereabouts(b)
    decreases |b.queue|, if b.current.Some? then 1 else 0
  {
    hide Whereabouts;
    match b.current
    case Some(m) =>
      if m.id in b.cancelled {
        DiscardMoves(b);
        SettleLosesNothing(b.(current := None, discarded := b.discarded + [m.id]));
      }
    case None =>
      if b.queue != [] {
        PickUpMoves(b);
        SettleLosesNothing(b.(current := Some(b.queue[0]), queue := b.queue[1..]));
      }
  }

  lemma DiscardMoves(b: BufferState)
    requires b.current.Some?
    ensures Whereabouts(b.(current := None, discarded := b.discarded + [b.current.value.id])) == Whereabouts(b)
  {}

  lemma PickUpMoves(b: BufferState)
    requires b.current.None? && b.queue != []
    ensures Whereabouts(b.(current := Some(b.queue[0]), queue := b.queue[1..])) == Whereabouts(b)
  {
    assert [b.queue[0].id] + Ids(b.queue[1..]) == Ids(b.queue);
  }

  lemma TurnLosesNothing(b: BufferState, poll: Poll, outcome: Outcome)
    ensures Whereabouts(BufferTurn(b, poll, outcome)) == Whereabouts(b)
  {
    hide Settle, Answered, Ids;
    SettleLosesNothing(b);
    var s := Settle(b);
    if s.current.Some? {
      var id := s.current.value.id;
      AnsweredPush(s.answers, (id, Served(outcome)));
      if s.failed.Some? {
        AnsweredPush(s.answers, (id, BufferFailed(s.failed.value)));
      } else if poll.NotReady? {
        AnsweredPush(s.answers, (id, BufferFailed(poll.error)));
      }
    }
  }

  lemma StepLosesNothing(c: Channel, base: BaseUri, e: ChannelEvent)
    requires c.buffer.failed.None?
    ensures Whereabouts(ChannelStep(c, base, e).buffer) ==
            Whereabouts(c.buffer) + (if e.Request? then multiset{e.msg.id} else multiset{})
  {
    hide Settle, Answered, Ids, ChannelTurn;
    match e
    case Request(m) => IdsPush(c.buffer.queue, m);
    case DropResponse(_) =>
    case Turn(driver, attempt) => ChannelTurnLosesNothing(c, base, driver, attempt);
  }

  /** Every request made is, exactly once, still waiting, in the worker's hand,
      answered, or dropped because its caller had left. */
  lemma {:induction false} EveryRequestIsAccountedFor(base: BaseUri, events: seq<ChannelEvent>)
    ensures Whereabouts(RunChannel(base, events).buffer) == Requested(events)
    decreases |events|
  {
    hide ChannelStep, Whereabouts;
    if events == [] {
      NothingAnywhere();
    } else {
      var front, last := events[..|events| - 1], events[|events| - 1];
      EveryRequestIsAccountedFor(base, front);
      ChannelNeverLatches(base, front);
      StepLosesNothing(RunChannel(base, front), base, last);
    }
  }

  lemma NothingAnywhere()
    ensures Whereabouts(NEW_BUFFER) == multiset{}
  {}

  lemma ChannelTurnLosesNothing(c: Channel, base: BaseUri, driver: DriverPoll, attempt: AttemptPoll)
    ensures Whereabouts(ChannelTurn(c, base, driver, attempt).buffer) == Whereabouts(c.buffer)
  {
    hide Whereabouts, BufferTurn;
    TurnLosesNothing(c.buffer, Pending, Uninitialized);
    if Asks(c.buffer) {
      var msg := Settle(c.buffer).current.value;
      var (s, p) := PollSender(c.sender, driver, attempt);
      var (a, q) := PollAdapter(c.adapter, p);
      TurnLosesNothing(c.buffer, q, Uninitialized);
      TurnLosesNothing(c.buffer, q, CallSender(s, base, msg.req).1);
      if a.failed.Some? {
        TurnLosesNothing(c.buffer, q, ConnectFailure(a.failed.value));
      }
    }
  }

  /** `H3Channel::new`: the worker holding the buffer's state, over the adapter,
      over the sender. */
  class H3Channel {
    const service: FailRequestNotService
    var queue: seq<Msg>
    var current: Option<Msg>
    var failed: Option<ConnectError>
    var cancelled: set<Id>
    var answers: seq<(Id, Answer)>
    var discarded: seq<Id>
    ghost var failedAttempts: nat

    ghost predicate Valid()
      reads this
    {
      && (this as object) != service && (this as object) != service.inner && (service as object) != service.inner
    }

    function Buffer(): BufferState
      reads this
    {
      BufferState(queue, current, failed, cancelled, answers, discarded)
    }

    ghost function State(): Channel
      reads this, service, service.inner
    {
      Channel(Buffer(), Adapter(service.failed), service.inner.State(), failedAttempts)
    }

    constructor (base: BaseUri)
      ensures Valid() && fresh(service) && fresh(service.inner)
      ensures State() == NEW_CHANNEL && service.inner.base == base
    {
      var inner := new MasqueRequestSender(base);
      var adapter := new FailRequestNotService(inner);
      service := adapter;
      queue, current, failed, cancelled, answers, discarded := [], None, None, {}, [], [];
      failedAttempts := 0;
    }

    method Ask(m: Msg)
      requires Valid()
      modifies this
      ensures Valid() && State() == ChannelStep(old(State()), service.inner.base, Request(m))
    {
      if failed.Some? {
        answers := answers + [(m.id, BufferFailed(failed.value))];
      } else {
        queue := queue + [m];
      }
    }

    method Drop(id: Id)
      requires Valid()
      modifies this
      ensures Valid() && State() == ChannelStep(old(State()), service.inner.base, DropResponse(id))
    {
      cancelled := cancelled + {id};
    }

    /** The worker's search for a message whose caller is still there. */
    method NextMessage()
      requires Valid()
      modifies this
      ensures Valid() && Buffer() == Settle(old(Buffer()))
      ensures failedAttempts == old(failedAttempts)
    {
      while true
        invariant Settle(Buffer()) == Settle(old(Buffer()))
        invariant failedAttempts == old(failedAttempts)
        decreases |queue|, if current.Some? then 1 else 0
      {
        if current.Some? {
          if current.value.id !in cancelled {
            return;
          }
          discarded := discarded + [current.value.id];
          current := None;
        } else if queue == [] {
          return;
        } else {
          current := Some(queue[0]);
          queue := queue[1..];
        }
      }
    }

    method Work(driverPoll: DriverPoll, attemptPoll: AttemptPoll)
      requires Valid()
      modifies this, service, service.inner
      ensures Valid() && State() == ChannelTurn(old(State()), service.inner.base, driverPoll, attemptPoll)
    {
      NextMessage();
      hide Settle;
      if current.None? {
        return;
      }
      var msg := current.value;
      if failed.Some? {
        current := None;
        answers := answers + [(msg.id, BufferFailed(failed.value))];
        return;
      }
      if AttemptFails(service.inner.State(), driverPoll, attemptPoll) {
        failedAttempts := failedAttempts + 1;
      }
      var p := service.PollReady(driverPoll, attemptPoll);
      match p {
        case Pending =>
        case Ready =>
          var o := service.Call(msg.req);
          current := None;
          answers := answers + [(msg.id, Served(o))];
        case NotReady(_) =>
          assert false;
      }
    }
  }
}
