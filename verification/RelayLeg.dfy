/**
 Who can stop a relay leg: the cancellation token of `open_bound_udp` and
 `open_connect_relay`, from the drop guard inside the call to the handle it
 returns, while the caller may drop the call at any await and the leg's own task
 runs beside it.
 */
module RelayLeg {
  import opened Wrappers

  /** A bind leg has nothing to await before its worker is spawned; a connect leg binds a socket. */
  datatype Kind = BindLeg | ConnectLeg

  // ----- The objects -----

  class CancellationToken {
    var cancelled: bool

    constructor ()
      ensures !cancelled
    {
      cancelled := false;
    }

    method Cancel()
      modifies this
      ensures cancelled
    {
      cancelled := true;
    }
  }

  /** `drop_guard()`: cancels when dropped, unless disarmed. */
  class DropGuard {
    const token: CancellationToken
    var armed: bool

    constructor (token: CancellationToken)
      ensures this.token == token && armed
    {
      this.token, armed := token, true;
    }

    method Drop()
      modifies this, token
      ensures !armed
      ensures token.cancelled == (old(token.cancelled) || old(armed))
    {
      if armed {
        token.Cancel();
        armed := false;
      }
    }

    method Disarm() returns (t: CancellationToken)
      modifies this
      ensures !armed && t == token
    {
      armed := false;
      t := token;
    }
  }

  // ----- The call, the worker and the holder, interleaved -----

  datatype Call = Preparing | Armed | BindingSocket | AwaitingReady | Returned | Errored | Abandoned
  datatype Task = NotSpawned | Starting | Established | Over
  datatype Ready = Unsent | SentOk | SentErr | SenderGone
  datatype Handle = NoHandle | Held | Closing | Gone

  datatype Leg = Leg(
    kind: Kind, call: Call, token: bool, guard: bool, cancelled: bool, task: Task, ready: Ready, handle: Handle, handles: nat)

  function Begin(kind: Kind): Leg
  {
    Leg(kind, Preparing, false, false, false, NotSpawned, Unsent, NoHandle, 0)
  }

  datatype Step =
    | Prepare(ok: bool)
    | BuildHeaders(ok: bool)
    | SocketResolves(ok: bool)
    | ReadyResolves
    | CallerDrops
    | TaskEstablishes
    | TaskFails
    | TaskDies
    | TaskStops
    | HolderCancels
    | HolderDrops
    | HolderCloses
    | CloseEnds(abort: bool)

  predicate Enabled(l: Leg, s: Step)
  {
    match s
    case Prepare(_) => l.call == Preparing
    case BuildHeaders(_) => l.call == Armed
    case SocketResolves(_) => l.call == BindingSocket
    case ReadyResolves => l.call == AwaitingReady && l.ready != Unsent
    case CallerDrops => l.call == Preparing || l.call == BindingSocket || l.call == AwaitingReady
    case TaskEstablishes => l.task == Starting
    case TaskFails => l.task == Starting
    case TaskDies => l.task == Starting || l.task == Established
    case TaskStops => l.task == Established
    case HolderCancels => l.handle == Held
    case HolderDrops => l.handle == Held || l.handle == Closing
    case HolderCloses => l.handle == Held
    case CloseEnds(abort) => l.handle == Closing && (abort || l.task == Over)
  }

  /** The guard goes out of scope while still armed. */
  function DropsGuard(l: Leg, call: Call): Leg
  {
    l.(call := call, cancelled := l.cancelled || l.guard, guard := false)
  }

  function Spawn(l: Leg): Leg
  {
    l.(call := AwaitingReady, task := Starting)
  }

  function Take(l: Leg, s: Step): Leg
  {
    if !Enabled(l, s) then l
    else match s
      case Prepare(ok) => if ok then l.(call := Armed, token := true, guard := true) else l.(call := Errored)
      case BuildHeaders(ok) =>
        if !ok then DropsGuard(l, Errored)
        else if l.kind.ConnectLeg? then l.(call := BindingSocket) else Spawn(l)
      case SocketResolves(ok) => if ok then Spawn(l) else DropsGuard(l, Errored)
      case ReadyResolves =>
        if l.ready == SentOk then l.(call := Returned, guard := false, handle := Held, handles := l.handles + 1)
        else DropsGuard(l.(cancelled := true), Errored)
      case CallerDrops => DropsGuard(l, Abandoned)
      case TaskEstablishes => l.(task := Established, ready := SentOk)
      case TaskFails => l.(task := Over, ready := SentErr)
      case TaskDies => l.(task := Over, ready := if l.ready == Unsent then SenderGone else l.ready)
      case TaskStops => l.(task := Over)
      case HolderCancels => l.(cancelled := true)
      case HolderDrops => l.(cancelled := true, handle := Gone)
      case HolderCloses => l.(cancelled := true, handle := Closing)
      case CloseEnds(_) => l.(handle := Gone, task := Over)
  }

  function Run(kind: Kind, steps: seq<Step>): Leg
  {
    if steps == [] then Begin(kind) else Take(Run(kind, steps[..|steps| - 1]), steps[|steps| - 1])
  }

  ghost predicate Inv(l: Leg)
  {
    // while the call runs past arming, the guard has the token and nobody else
    && (l.call in {Armed, BindingSocket, AwaitingReady} <==> l.guard)
    && (l.guard ==> !l.cancelled)
    && (l.call == Preparing ==> !l.token && !l.cancelled)
    && (l.guard || l.cancelled || l.call == Returned ==> l.token)
    // a call that ended without returning has cancelled whatever it armed
    && (l.token && (l.call == Errored || l.call == Abandoned) ==> l.cancelled)
    // one handle at most, for the call that returned it
    && (l.handle != NoHandle <==> l.call == Returned)
    && l.handles == (if l.call == Returned then 1 else 0)
    && (l.call == Returned ==> l.ready == SentOk)
    && (l.handle == Closing || l.handle == Gone ==> l.cancelled)
    // a worker exists only past arming
    && (l.task != NotSpawned ==> l.token && l.call !in {Preparing, Armed, BindingSocket})
    && (l.task == Established ==> l.ready == SentOk)
    && (l.task == NotSpawned || l.task == Starting ==> l.ready == Unsent)
  }

  lemma StepKeepsInv(l: Leg, s: Step)
    requires Inv(l)
    ensures Inv(Take(l, s))
  {}

  lemma {:induction false} RunsKeepInv(kind: Kind, steps: seq<Step>)
    ensures Inv(Run(kind, steps))
  {
    hide Take, Inv;
    if steps == [] {
      BeginIsFine(kind);
    } else {
      RunsKeepInv(kind, steps[..|steps| - 1]);
      StepKeepsInv(Run(kind, steps[..|steps| - 1]), steps[|steps| - 1]);
    }
  }

  lemma BeginIsFine(kind: Kind)
    ensures Inv(Begin(kind))
  {}

  predicate Ended(l: Leg)
  {
    l.call == Returned || l.call == Errored || l.call == Abandoned
  }

  /** Wherever the call was dropped or failed, and whatever its worker did meanwhile:
      once a token was armed it is the guard's until the call ends, and from then on
      it is cancelled or held by exactly one live handle; and a leg that is starting
      or running always has somebody able to stop it, or has been told to stop. */
  lemma NoUnownedLeg(kind: Kind, steps: seq<Step>)
    ensures var l := Run(kind, steps);
            && (l.token && !Ended(l) ==> l.guard && l.handle == NoHandle)
            && (l.token && Ended(l) ==> !l.guard && (l.cancelled || (l.handle == Held && l.handles == 1)))
            && (l.task == Starting || l.task == Established ==> l.guard || l.handle == Held || l.cancelled)
            && l.handles <= 1
  {
    RunsKeepInv(kind, steps);
  }

  /** A handle is evidence: there is one only if the worker reported the leg
      established, the call that failed or was dropped never yields one, and one
      that was dropped or closed has cancelled its leg. */
  lemma HandlesMeanEstablished(kind: Kind, steps: seq<Step>)
    ensures var l := Run(kind, steps);
            && (l.handle != NoHandle <==> l.call == Returned)
            && (l.handle != NoHandle ==> l.ready == SentOk && exists i | 0 <= i < |steps| :: steps[i] == TaskEstablishes)
            && (l.handle == Closing || l.handle == Gone ==> l.cancelled)
  {
    RunsKeepInv(kind, steps);
    if Run(kind, steps).ready == SentOk {
      OnlyTheTaskSaysOk(kind, steps);
    }
  }

  lemma {:induction false} OnlyTheTaskSaysOk(kind: Kind, steps: seq<Step>)
    requires Run(kind, steps).ready == SentOk
    ensures exists i | 0 <= i < |steps| :: steps[i] == TaskEstablishes
  {
    var n := |steps| - 1;
    if steps[n] != TaskEstablishes {
      OnlyTheTaskSaysOk(kind, steps[..n]);
      var i :| 0 <= i < n && steps[..n][i] == TaskEstablishes;
      assert steps[i] == TaskEstablishes;
    }
  }

  /** Cancelling is never undone. */
  lemma {:induction false} CancelledStaysCancelled(kind: Kind, steps: seq<Step>, later: seq<Step>)
    requires Run(kind, steps).cancelled
    ensures Run(kind, steps + later).cancelled
    decreases |later|
  {
    if later == [] {
      assert steps + later == steps;
    } else {
      var n := |later| - 1;
      assert (steps + later)[..|steps + later| - 1] == steps + later[..n];
      CancelledStaysCancelled(kind, steps, later[..n]);
    }
  }

  /** What each side's steps come to: a worker that starts says established, says it
      failed or dies; one that is established stops or dies; a holder cancels, drops or
      closes; a close ends with the worker over, or aborted. */
  lemma WhatEachStepComesTo(l: Leg)
    ensures l.task == Starting ==>
              && Take(l, TaskEstablishes) == l.(task := Established, ready := SentOk)
              && Take(l, TaskFails) == l.(task := Over, ready := SentErr)
    ensures l.task == Starting || l.task == Established ==>
              Take(l, TaskDies) == l.(task := Over, ready := if l.ready == Unsent then SenderGone else l.ready)
    ensures l.task == Established ==> Take(l, TaskStops) == l.(task := Over)
    ensures l.handle == Held ==>
              && Take(l, HolderCancels) == l.(cancelled := true)
              && Take(l, HolderCloses) == l.(cancelled := true, handle := Closing)
    ensures l.handle == Held || l.handle == Closing ==> Take(l, HolderDrops) == l.(cancelled := true, handle := Gone)
    ensures l.handle == Closing ==>
              && Take(l, CloseEnds(true)) == l.(handle := Gone, task := Over)
              && Take(l, CloseEnds(false)) == (if l.task == Over then l.(handle := Gone) else l)
    ensures l.call == Preparing ==> Take(l, Prepare(false)) == l.(call := Errored)
    ensures l.call == Preparing && !l.guard ==> Take(l, CallerDrops) == l.(call := Abandoned)
    ensures (l.call == BindingSocket || l.call == AwaitingReady) && l.guard ==>
              Take(l, CallerDrops) == l.(call := Abandoned, guard := false, cancelled := true)
    ensures l.call == Armed && l.guard ==> Take(l, BuildHeaders(false)) == l.(call := Errored, guard := false, cancelled := true)
    ensures l.call == BindingSocket && l.guard ==>
              Take(l, SocketResolves(false)) == l.(call := Errored, guard := false, cancelled := true)
  {}

  /** And when every stage of the call succeeds, a held handle and an established leg
      come of it; when the last wait brings anything else, a cancelled one. */
  lemma WhatTheCallComesTo(kind: Kind, word: Step)
    requires word in {TaskEstablishes, TaskFails, TaskDies}
    ensures var way := [Prepare(true), BuildHeaders(true)] + (if kind.ConnectLeg? then [SocketResolves(true)] else []);
            && Run(kind, way) == Leg(kind, AwaitingReady, true, true, false, Starting, Unsent, NoHandle, 0)
            && Run(kind, (way + [word]) + [ReadyResolves]) ==
               match word
               case TaskEstablishes => Leg(kind, Returned, true, false, false, Established, SentOk, Held, 1)
               case TaskFails => Leg(kind, Errored, true, false, true, Over, SentErr, NoHandle, 0)
               case _ => Leg(kind, Errored, true, false, true, Over, SenderGone, NoHandle, 0)
  {
    hide Run;
    BeginIsRun(kind);
    RunPush(kind, [], Prepare(true));
    assert [] + [Prepare(true)] == [Prepare(true)];
    RunPush(kind, [Prepare(true)], BuildHeaders(true));
    var way := [Prepare(true), BuildHeaders(true)];
    assert [Prepare(true)] + [BuildHeaders(true)] == way && way + [] == way;
    if kind.ConnectLeg? {
      RunPush(kind, way, SocketResolves(true));
      way := way + [SocketResolves(true)];
    }
    RunPush(kind, way, word);
    RunPush(kind, way + [word], ReadyResolves);
  }

  lemma BeginIsRun(kind: Kind)
    ensures Run(kind, []) == Leg(kind, Preparing, false, false, false, NotSpawned, Unsent, NoHandle, 0)
  {}

  // ----- The call and the handle as the source writes them -----

  lemma RunPush(kind: Kind, steps: seq<Step>, s: Step)
    ensures Run(kind, steps + [s]) == Take(Run(kind, steps), s)
  {
    assert (steps + [s])[..|steps|] == steps;
  }

  function TakeAll(l: Leg, steps: seq<Step>): Leg
    decreases |steps|
  {
    if steps == [] then l else Take(TakeAll(l, steps[..|steps| - 1]), steps[|steps| - 1])
  }

  predicate WorkerStep(s: Step)
  {
    s.TaskEstablishes? || s.TaskFails? || s.TaskDies? || s.TaskStops?
  }

  lemma {:induction false} WorkerLeavesTheRest(l: Leg, work: seq<Step>)
    requires forall s | s in work :: WorkerStep(s)
    ensures var d := TakeAll(l, work);
            d.cancelled == l.cancelled && d.handle == l.handle && d.handles == l.handles && d.call == l.call
    decreases |work|
  {
    if work != [] {
      assert forall s | s in work[..|work| - 1] :: s in work;
      WorkerLeavesTheRest(l, work[..|work| - 1]);
      assert WorkerStep(work[|work| - 1]);
    }
  }

  /** `BindSession` and `ConnectRelay`: the token, and the spawned worker until `close` takes it. */
  class RelayHandle {
    const shutdown: CancellationToken
    var hasTask: bool

    /** This handle in a state of the whole leg. */
    ghost predicate Shows(l: Leg)
      reads this, shutdown
    {
      l.cancelled == shutdown.cancelled && (l.handle == Held ==> hasTask)
    }

    constructor (shutdown: CancellationToken)
      ensures this.shutdown == shutdown && hasTask
    {
      this.shutdown, hasTask := shutdown, true;
    }

    method Drop(ghost l: Leg)
      requires Shows(l) && (l.handle == Held || l.handle == Closing)
      modifies shutdown
      ensures shutdown.cancelled && Shows(Take(l, HolderDrops))
    {
      shutdown.Cancel();
    }

    /** Waits for the worker, but not forever: one that does not stop is abandoned.
        `work` is what the worker does meanwhile. */
    method Close(ghost l: Leg, ghost work: seq<Step>, stopsInTime: bool) returns (aborted: bool)
      requires Shows(l) && l.handle == Held && forall s | s in work :: WorkerStep(s)
      requires stopsInTime ==> TakeAll(Take(l, HolderCloses), work).task == Over
      modifies this, shutdown
      ensures shutdown.cancelled && !hasTask
      ensures aborted <==> !stopsInTime
      ensures var waited := TakeAll(Take(l, HolderCloses), work);
              && Enabled(waited, CloseEnds(aborted))
              && Shows(Take(waited, CloseEnds(aborted)))
    {
      WorkerLeavesTheRest(Take(l, HolderCloses), work);
      shutdown.Cancel();
      aborted := false;
      if hasTask {
        hasTask := false;
        aborted := !stopsInTime;
      }
      Drop(TakeAll(Take(l, HolderCloses), work));
    }
  }

  /** What became of an await: the caller dropped the call there, or it resolved. */
  datatype Awaited = CallerDropped | Resolved(ok: bool)

  /** What became of the wait for the worker's word: the caller dropped the call, or
      the worker said that the leg is established or that it is not, or ended without
      a word. */
  datatype Word = CallerLeft | SaidEstablished | SaidFailed | NoWord

  /** What the call and its objects look like in a state of the whole leg. */
  ghost predicate Outcome(l: Leg, handle: RelayHandle?, token: CancellationToken?)
    reads handle, token
  {
    && Ended(l) && !l.guard
    && (token != null <==> l.token) && (token != null ==> token.cancelled == l.cancelled)
    && (handle != null <==> l.handle == Held) && (handle != null ==> handle.shutdown == token && handle.hasTask)
  }

  /** One whole call, and the steps of the leg it takes with its worker: whichever way
      it ends, the objects are in the state those steps lead to.  Past arming the token
      is cancelled or belongs to the one handle returned, and that only when the leg
      reported itself established. */
  method Open(kind: Kind, prepared: bool, headers: bool, socket: Awaited, ready: Word)
    returns (handle: RelayHandle?, token: CancellationToken?, ghost path: seq<Step>)
    ensures Outcome(Run(kind, path), handle, token)
    ensures token != null <==> prepared
    ensures token != null ==> fresh(token)
    ensures handle != null <==>
            prepared && headers && (kind.ConnectLeg? ==> socket == Resolved(true)) && ready == SaidEstablished
    ensures handle != null ==> fresh(handle) && handle.shutdown == token && handle.hasTask && !token.cancelled
    ensures handle == null && token != null ==> token.cancelled
  {
    ghost var l := Begin(kind);
    path := [];
    assert l == Run(kind, path);
    hide Run;
    path, l := StepsOn(kind, path, l, Prepare(prepared));
    if !prepared {
      return null, null, path;
    }
    token := new CancellationToken();
    var armed := new DropGuard(token);
    assert l == Leg(kind, Armed, true, true, false, NotSpawned, Unsent, NoHandle, 0);
    path, l := StepsOn(kind, path, l, BuildHeaders(headers));
    if !headers {
      armed.Drop();
      return null, token, path;
    }
    if kind.ConnectLeg? {
      path, l := StepsOn(kind, path, l, if socket.CallerDropped? then CallerDrops else SocketResolves(socket.ok));
      if socket.CallerDropped? || !socket.ok {
        armed.Drop();
        return null, token, path;
      }
    }
    handle, path := AwaitWord(kind, path, token, armed, ready);
  }

  /** The end of that call: waiting for the worker's word, and what each word leads to. */
  method AwaitWord(kind: Kind, ghost path: seq<Step>, token: CancellationToken, armed: DropGuard, ready: Word)
    returns (handle: RelayHandle?, ghost whole: seq<Step>)
    requires Run(kind, path) == Leg(kind, AwaitingReady, true, true, false, Starting, Unsent, NoHandle, 0)
    requires armed.token == token && armed.armed && !token.cancelled
    modifies armed, token
    ensures Outcome(Run(kind, whole), handle, token)
    ensures handle != null <==> ready == SaidEstablished
    ensures handle != null ==> fresh(handle) && handle.shutdown == token && handle.hasTask && !token.cancelled
    ensures handle == null ==> token.cancelled
  {
    hide Run;
    ghost var l := Run(kind, path);
    if ready.CallerLeft? {
      whole, l := StepsOn(kind, path, l, CallerDrops);
      armed.Drop();
      return null, whole;
    }
    whole, l := StepsOn(kind, path, l,
                        if ready.SaidEstablished? then TaskEstablishes else if ready.SaidFailed? then TaskFails else TaskDies);
    whole, l := StepsOn(kind, whole, l, ReadyResolves);
    if ready.SaidFailed? {
      token.Cancel();
      armed.Drop();
      return null, whole;
    }
    if ready.NoWord? {
      token.Cancel();
      armed.Drop();
      return null, whole;
    }
    var owned := armed.Disarm();
    handle := new RelayHandle(owned);
    armed.Drop();
  }

  lemma StepsOn(kind: Kind, path: seq<Step>, l: Leg, s: Step) returns (longer: seq<Step>, next: Leg)
    requires l == Run(kind, path) && Enabled(l, s)
    ensures longer == path + [s] && next == Take(l, s) == Run(kind, longer)
  {
    RunPush(kind, path, s);
    longer, next := path + [s], Take(l, s);
  }
}
