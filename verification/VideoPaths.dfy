/**
 The multipath receive loop, its watchdog, and the two viewers that follow it by
 folding the path events it reports.

 `prefer_path` belongs to another crate; whether it succeeds is part of the event,
 and `active` is the pair it last succeeded for.  Times are milliseconds.
 */
module VideoPaths {
  import opened Wrappers

  /** Socket addresses are only ever compared. */
  type Address = nat
  type PathId = nat
  type Time = nat
  datatype Pair = Pair(local: Address, remote: Address)

  const MIGRATED_PATH_GRACE: Time := 5_000

  datatype PathEvent = Relay(pair: Pair) | DirectValidated(pair: Pair) | Activated(pair: Pair)

  /** One ready arm of the loop's `select!`, the end of a read inside the accepting
      arm, or just time going by. */
  datatype Event =
    | Shutdown
    | Tick(now: Time, prefers: bool)
    | PathValidated(pair: Pair)
    | PathAdded(pair: Pair, id: PathId)
    | PathRemoved(pair: Pair, id: PathId)
    | OtherConnectionEvent
    | ConnectionEventsEnded
    | MoveAsked(pair: Pair, now: Time, prefers: bool)
    | RequesterGone
    | StreamAccepted(now: Time)
    | ReadEnded(now: Time, ok: bool)
    | AcceptFailed
    | Waited(now: Time)

  /** `reading` while the loop is inside the accepting arm, in `read_to_end`: no other
      arm is polled until that read ends, if it does. */
  datatype Receiver = Receiver(
    relay: Pair, migratedSince: Option<Time>, directPaths: map<Pair, PathId>, requests: bool, running: bool,
    reading: bool, active: Pair, reported: seq<PathEvent>)

  function Start(relay: Pair): Receiver
  {
    Receiver(relay, None, map[], true, true, false, relay, [Relay(relay)])
  }

  /** Whether the loop gets to handle `e` in this state. */
  predicate Handles(r: Receiver, e: Event)
  {
    r.running && r.reading == e.ReadEnded? && !e.Waited? && (e.MoveAsked? || e.RequesterGone? ==> r.requests)
  }

  predicate Expired(r: Receiver, now: Time)
  {
    r.migratedSince.Some? && now - r.migratedSince.value >= MIGRATED_PATH_GRACE
  }

  function Prefer(r: Receiver, pair: Pair, prefers: bool): Receiver
  {
    if prefers then r.(active := pair, reported := r.reported + [Activated(pair)]) else r
  }

  function Step(r: Receiver, e: Event): Receiver
  {
    if !Handles(r, e) then r
    else match e
      case Shutdown => r.(running := false)
      case Tick(now, prefers) =>
        if Expired(r, now) then Prefer(r.(migratedSince := None), r.relay, prefers) else r
      case PathValidated(pair) =>
        if pair != r.relay then r.(reported := r.reported + [DirectValidated(pair)]) else r
      case PathAdded(pair, id) =>
        if pair != r.relay then r.(directPaths := r.directPaths[pair := id]) else r
      case PathRemoved(pair, _) =>
        r.(directPaths := r.directPaths - {pair},
           migratedSince := if pair != r.relay then None else r.migratedSince)
      case OtherConnectionEvent => r
      case ConnectionEventsEnded => r.(running := false)
      case MoveAsked(pair, now, prefers) =>
        var moved := Prefer(r, pair, prefers);
        if prefers then moved.(migratedSince := if pair != r.relay then Some(now) else None) else moved
      case RequesterGone => r.(requests := false)
      case StreamAccepted(now) =>
        r.(migratedSince := if r.migratedSince.Some? then Some(now) else None, reading := true)
      case ReadEnded(_, ok) => r.(reading := false, running := ok)
      case AcceptFailed => r.(running := false)
      case Waited(_) => r
  }

  function Run(relay: Pair, events: seq<Event>): Receiver
    decreases |events|
  {
    if events == [] then Start(relay) else Step(Run(relay, events[..|events| - 1]), events[|events| - 1])
  }

  /** The loop's own variables, one method per arm. */
  class VideoReceiver {
    const relay: Pair
    var migratedSince: Option<Time>
    var directPaths: map<Pair, PathId>
    var requests: bool
    var running: bool
    var reading: bool
    ghost var active: Pair
    var reported: seq<PathEvent>

    ghost function State(): Receiver
      reads this
    {
      Receiver(relay, migratedSince, directPaths, requests, running, reading, active, reported)
    }

    constructor (relay: Pair)
      ensures State() == Start(relay)
    {
      this.relay := relay;
      migratedSince, directPaths, requests, running, reading := None, map[], true, true, false;
      active := relay;
      reported := [Relay(relay)];
    }

    method OnTick(now: Time, prefers: bool)
      requires running && !reading
      modifies this
      ensures State() == Step(old(State()), Tick(now, prefers))
    {
      if migratedSince.Some? {
        if now - migratedSince.value >= MIGRATED_PATH_GRACE {
          migratedSince := None;
          if prefers {
            active := relay;
            reported := reported + [Activated(relay)];
          }
        }
      }
    }

    method OnPathValidated(pair: Pair)
      requires running && !reading
      modifies this
      ensures State() == Step(old(State()), PathValidated(pair))
    {
      if pair != relay {
        reported := reported + [DirectValidated(pair)];
      }
    }

    method OnPathAdded(pair: Pair, id: PathId)
      requires running && !reading
      modifies this
      ensures State() == Step(old(State()), PathAdded(pair, id))
    {
      if pair != relay {
        directPaths := directPaths[pair := id];
      }
    }

    method OnPathRemoved(pair: Pair, id: PathId)
      requires running && !reading
      modifies this
      ensures State() == Step(old(State()), PathRemoved(pair, id))
    {
      directPaths := directPaths - {pair};
      if pair != relay {
        migratedSince := None;
      }
    }

    method OnMoveAsked(pair: Pair, now: Time, prefers: bool)
      requires running && !reading && requests
      modifies this
      ensures State() == Step(old(State()), MoveAsked(pair, now, prefers))
    {
      if prefers {
        active := pair;
        migratedSince := if pair != relay then Some(now) else None;
        reported := reported + [Activated(pair)];
      }
    }

    method OnRequesterGone()
      requires running && !reading && requests
      modifies this
      ensures State() == Step(old(State()), RequesterGone)
    {
      requests := false;
    }

    method OnStreamAccepted(now: Time)
      requires running && !reading
      modifies this
      ensures State() == Step(old(State()), StreamAccepted(now))
    {
      if migratedSince.Some? {
        migratedSince := Some(now);
      }
      reading := true;
    }

    method OnReadEnded(now: Time, ok: bool)
      requires running && reading
      modifies this
      ensures State() == Step(old(State()), ReadEnded(now, ok))
    {
      reading := false;
      if !ok {
        running := false;
      }
    }

    method OnEnd(e: Event)
      requires running && !reading && (e.Shutdown? || e.ConnectionEventsEnded? || e.AcceptFailed?)
      modifies this
      ensures State() == Step(old(State()), e)
    {
      running := false;
    }
  }

  // ----- The viewers -----

  datatype View = View(relay: Option<Pair>, direct: Option<Pair>, onRelay: bool)

  /** `Paths::default()` and the desktop's reset do not agree on `onRelay`. */
  const FFI_DEFAULT := View(None, None, false)
  const DESKTOP_DEFAULT := View(None, None, true)

  function FfiApply(v: View, e: PathEvent): View
  {
    match e
    case Relay(pair) => v.(relay := Some(pair), onRelay := true)
    case DirectValidated(pair) => v.(direct := Some(pair))
    case Activated(pair) => v.(onRelay := Some(pair) == v.relay)
  }

  /** The desktop learns the relay without concluding that it is on it. */
  function DesktopApply(v: View, e: PathEvent): View
  {
    match e
    case Relay(pair) => v.(relay := Some(pair))
    case DirectValidated(pair) => v.(direct := Some(pair))
    case Activated(pair) => v.(onRelay := Some(pair) == v.relay)
  }

  function FfiView(events: seq<PathEvent>): View
  {
    if events == [] then FFI_DEFAULT else FfiApply(FfiView(events[..|events| - 1]), events[|events| - 1])
  }

  function DesktopAfter(v: View, events: seq<PathEvent>): View
    decreases |events|
  {
    if events == [] then v else DesktopApply(DesktopAfter(v, events[..|events| - 1]), events[|events| - 1])
  }

  function MigrationTarget(v: View): Option<Pair>
  {
    if v.onRelay then v.direct else v.relay
  }

  /** The FFI's `Paths`. */
  class Paths {
    var relay: Option<Pair>
    var direct: Option<Pair>
    var onRelay: bool

    function Seen(): View
      reads this
    {
      View(relay, direct, onRelay)
    }

    constructor ()
      ensures Seen() == FFI_DEFAULT
    {
      relay, direct, onRelay := None, None, false;
    }

    method Apply(e: PathEvent)
      modifies this
      ensures Seen() == FfiApply(old(Seen()), e)
    {
      match e {
        case Relay(pair) =>
          relay := Some(pair);
          onRelay := true;
        case DirectValidated(pair) =>
          direct := Some(pair);
        case Activated(pair) =>
          onRelay := Some(pair) == relay;
      }
    }

    /** `ViewerSession::migrate`: ask the loop, through a channel that may be full. */
    method Migrate(channelTakes: bool) returns (requested: Option<Pair>, told: bool)
      ensures requested == (if channelTakes then MigrationTarget(Seen()) else None)
      ensures told <==> requested.Some?
    {
      var target := if onRelay then direct else relay;
      if target.Some? && channelTakes {
        return target, true;
      }
      return None, false;
    }
  }

  /** The path fields of the desktop application. */
  class MyApp {
    var isekaiLinkPath: Option<Pair>
    var p2pPath: Option<Pair>
    var isIsekaiLink: bool
    var pathRx: seq<PathEvent>

    function Seen(): View
      reads this
    {
      View(isekaiLinkPath, p2pPath, isIsekaiLink)
    }

    constructor ()
      ensures Seen() == DESKTOP_DEFAULT && pathRx == []
    {
      isekaiLinkPath, p2pPath, isIsekaiLink, pathRx := None, None, true, [];
    }

    method DrainPathEvents()
      modifies this
      ensures Seen() == DesktopAfter(old(Seen()), old(pathRx)) && pathRx == []
    {
      ghost var all, done := pathRx, 0;
      assert all[..0] == [];
      while pathRx != []
        invariant 0 <= done <= |all| && pathRx == all[done..]
        invariant Seen() == DesktopAfter(old(Seen()), all[..done])
        decreases |pathRx|
      {
        var event := pathRx[0];
        pathRx := pathRx[1..];
        assert all[..done + 1][..done] == all[..done];
        match event {
          case Relay(pair) =>
            isekaiLinkPath := Some(pair);
          case DirectValidated(pair) =>
            p2pPath := Some(pair);
          case Activated(pair) =>
            isIsekaiLink := Some(pair) == isekaiLinkPath;
        }
        done := done + 1;
      }
      assert all[..done] == all;
    }
  }

  /** It makes no difference how the events are split over frames of the UI. */
  lemma {:induction false} DrainingInBatches(v: View, first: seq<PathEvent>, second: seq<PathEvent>)
    ensures DesktopAfter(DesktopAfter(v, first), second) == DesktopAfter(v, first + second)
    decreases |second|
  {
    if second == [] {
      assert first + second == first;
    } else {
      var n := |second| - 1;
      assert (first + second)[..|first + second| - 1] == first + second[..n];
      DrainingInBatches(v, first, second[..n]);
    }
  }

  /** The shape of what a loop reports: the relay first and once, and never the relay
      as a direct path; the last pair it named as carrying the traffic does. */
  ghost predicate TraceOf(r: Receiver)
  {
    && r.reported != [] && r.reported[0] == Relay(r.relay)
    && (forall i | 1 <= i < |r.reported| :: !r.reported[i].Relay? && r.reported[i] != DirectValidated(r.relay))
    && Believed(r.reported) == Some(r.active)
  }

  /** The pair that, by these reports, carries the traffic. */
  function Believed(events: seq<PathEvent>): Option<Pair>
  {
    if events == [] then None
    else
      match events[|events| - 1]
      case DirectValidated(_) => Believed(events[..|events| - 1])
      case Relay(pair) => Some(pair)
      case Activated(pair) => Some(pair)
  }

  lemma BelievedPush(events: seq<PathEvent>, e: PathEvent)
    ensures Believed(events + [e]) == if e.DirectValidated? then Believed(events) else Some(e.pair)
  {
    assert (events + [e])[..|events|] == events;
  }

  lemma StepKeepsTrace(r: Receiver, e: Event)
    requires TraceOf(r)
    ensures TraceOf(Step(r, e)) && Step(r, e).relay == r.relay
  {
    hide Believed;
    var s := Step(r, e);
    if s.reported != r.reported {
      BelievedPush(r.reported, s.reported[|r.reported|]);
    }
  }

  lemma StartIsTraced(relay: Pair)
    ensures TraceOf(Start(relay))
  {}

  lemma {:induction false} RunsKeepTrace(relay: Pair, events: seq<Event>)
    ensures TraceOf(Run(relay, events)) && Run(relay, events).relay == relay
    decreases |events|
  {
    hide Step, TraceOf;
    if events == [] {
      StartIsTraced(relay);
    } else {
      RunsKeepTrace(relay, events[..|events| - 1]);
      StepKeepsTrace(Run(relay, events[..|events| - 1]), events[|events| - 1]);
    }
  }

  /** A viewer that has drained a first part of such a trace. */
  lemma {:induction false} ViewOfPrefix(r: Receiver, k: nat)
    requires TraceOf(r) && 1 <= k <= |r.reported|
    ensures var seen := r.reported[..k];
            var v := FfiView(seen);
            && DesktopAfter(DESKTOP_DEFAULT, seen) == v
            && v.relay == Some(r.relay) && v.direct != Some(r.relay)
            && (v.onRelay <==> Believed(seen) == Some(r.relay))
    ensures Believed(r.reported[..k]).Some?
  {
    var seen := r.reported[..k];
    assert seen[..k - 1] == r.reported[..k - 1];
    if k == 1 {
      assert seen[..0] == [];
    } else {
      ViewOfPrefix(r, k - 1);
    }
  }

  /** After any run, whatever moved, failed or was asked for, both viewers say the
      traffic is on the relay exactly when it is, although they start from
      different defaults and treat the relay's announcement differently. */
  lemma ViewersTellTheTruth(relay: Pair, events: seq<Event>)
    ensures var r := Run(relay, events);
            var v := FfiView(r.reported);
            && DesktopAfter(DESKTOP_DEFAULT, r.reported) == v
            && v.relay == Some(relay)
            && v.direct != Some(relay)
            && (v.onRelay <==> r.active == relay)
  {
    hide FfiView, DesktopAfter;
    var r := Run(relay, events);
    RunsKeepTrace(relay, events);
    assert r.reported[..|r.reported|] == r.reported;
    ViewOfPrefix(r, |r.reported|);
  }

  /** Nothing among these reports moves the traffic. */
  ghost predicate NothingActivated(events: seq<PathEvent>)
  {
    forall i | 0 <= i < |events| :: !events[i].Activated?
  }

  /** However far a viewer has come in draining the reports, both viewers would ask
      for the same pair, never for the one they believe carries the traffic, and for
      the relay exactly when they believe it does not; and unless a move is still
      undrained, what they believe is so. */
  lemma MovesGoElsewhere(relay: Pair, events: seq<Event>, k: nat)
    requires k <= |Run(relay, events).reported|
    ensures var r := Run(relay, events);
            var seen := r.reported[..k];
            var target := MigrationTarget(FfiView(seen));
            && target == MigrationTarget(DesktopAfter(DESKTOP_DEFAULT, seen))
            && (k > 0 ==> target == if Believed(seen) == Some(relay) then LastValidated(seen) else Some(relay))
            && (target.Some? ==> Believed(seen).Some? && target != Believed(seen))
            && (target.Some? ==> (target == Some(relay) <==> Believed(seen) != Some(relay)))
            && (k > 0 && NothingActivated(r.reported[k..]) ==> Believed(seen) == Some(r.active))
  {
    hide FfiView, DesktopAfter, LastValidated;
    var r := Run(relay, events);
    RunsKeepTrace(relay, events);
    DirectIsTheLastValidated(r.reported[..k]);
    if k == 0 {
      NothingDrained();
    } else {
      ViewOfPrefix(r, k);
      if NothingActivated(r.reported[k..]) {
        BelievedLater(r, k);
      }
    }
  }

  /** Before any report neither viewer knows a path; they do not agree on whether that
      is the relay. */
  lemma NothingDrained()
    ensures FfiView([]) == View(None, None, false)
    ensures DesktopAfter(DESKTOP_DEFAULT, []) == View(None, None, true)
  {}

  lemma {:induction false} BelievedLater(r: Receiver, k: nat)
    requires TraceOf(r) && 1 <= k <= |r.reported| && NothingActivated(r.reported[k..])
    ensures Believed(r.reported[..k]) == Believed(r.reported)
    decreases |r.reported| - k
  {
    if k == |r.reported| {
      assert r.reported[..k] == r.reported;
    } else {
      assert r.reported[..k + 1][..k] == r.reported[..k];
      var left := r.reported[k..];
      assert left[0] == r.reported[k] && left[1..] == r.reported[k + 1..];
      BelievedLater(r, k + 1);
    }
  }

  /** The last pair these reports move the traffic to, if any does. */
  function LastMove(events: seq<PathEvent>): Option<Pair>
  {
    if events == [] then None
    else if events[|events| - 1].Activated? then Some(events[|events| - 1].pair)
    else LastMove(events[..|events| - 1])
  }

  /** The last direct path these reports call validated. */
  function LastValidated(events: seq<PathEvent>): Option<Pair>
  {
    if events == [] then None
    else if events[|events| - 1].DirectValidated? then Some(events[|events| - 1].pair)
    else LastValidated(events[..|events| - 1])
  }

  /** Where the traffic is, by what is undrained and, failing that, what was drained. */
  lemma {:induction false} UndrainedMoveDecides(r: Receiver, k: nat, n: nat)
    requires TraceOf(r) && 1 <= k <= n <= |r.reported|
    ensures var move := LastMove(r.reported[k..n]);
            Believed(r.reported[..n]) == if move.Some? then move else Believed(r.reported[..k])
    decreases n
  {
    if k < n {
      UndrainedMoveDecides(r, k, n - 1);
      assert r.reported[..n][..n - 1] == r.reported[..n - 1];
      assert r.reported[k..n][..n - 1 - k] == r.reported[k..n - 1];
    }
  }

  lemma {:induction false} DirectIsTheLastValidated(events: seq<PathEvent>)
    ensures FfiView(events).direct == LastValidated(events)
  {
    if events != [] {
      DirectIsTheLastValidated(events[..|events| - 1]);
    }
  }

  /** A viewer asks for the pair that already carries the traffic exactly when a move
      is undrained, the last one undrained crossed over from what the viewer believes
      (to the relay, or off it), and, if it went off the relay, it went to the direct
      path the viewer has last seen validated. */
  lemma PairInUseIsAskedForExactly(relay: Pair, events: seq<Event>, k: nat)
    requires k <= |Run(relay, events).reported|
    ensures var r := Run(relay, events);
            var seen, move := r.reported[..k], LastMove(r.reported[k..]);
            MigrationTarget(FfiView(seen)) == Some(r.active) <==>
            && k > 0 && move.Some?
            && (move == Some(relay) <==> Believed(seen) != Some(relay))
            && (move != Some(relay) ==> LastValidated(seen) == move)
  {
    hide FfiView, DesktopAfter, LastMove, LastValidated, Believed;
    var r := Run(relay, events);
    RunsKeepTrace(relay, events);
    DirectIsTheLastValidated(r.reported[..k]);
    if k == 0 {
      NothingDrained();
      assert r.reported[..0] == [];
    } else {
      ViewOfPrefix(r, k);
      UndrainedMoveDecides(r, k, |r.reported|);
      assert r.reported[..|r.reported|] == r.reported && r.reported[k..|r.reported|] == r.reported[k..];
    }
  }

  /** Such a viewer: it has seen the direct path validated, and not the move to it. */
  lemma LaggingViewerAsksForThePairInUse(relay: Pair, direct: Pair, now: Time)
    requires direct != relay
    ensures var r := Run(relay, [PathValidated(direct), MoveAsked(direct, now, true)]);
            |r.reported| == 3 && MigrationTarget(FfiView(r.reported[..2])) == Some(r.active)
  {
    var events := [PathValidated(direct), MoveAsked(direct, now, true)];
    assert events[..1] == [PathValidated(direct)];
    assert events[..1][..0] == [];
    assert Run(relay, events[..1]) == Step(Start(relay), PathValidated(direct));
    var seen := Run(relay, events).reported[..2];
    assert seen == [Relay(relay), DirectValidated(direct)];
    assert seen[..1] == [Relay(relay)];
    assert seen[..1][..0] == [];
    assert FfiView(seen[..1]) == FfiApply(FFI_DEFAULT, Relay(relay));
  }

  // ----- The watchdog -----

  ghost predicate ArmedOffRelay(r: Receiver)
  {
    r.migratedSince.Some? ==> r.active != r.relay
  }

  /** Armed means off the relay, in every reachable state. */
  lemma {:induction false} WatchdogOnlyOffRelay(relay: Pair, events: seq<Event>)
    ensures ArmedOffRelay(Run(relay, events)) && Run(relay, events).relay == relay
    decreases |events|
  {
    if events != [] {
      WatchdogOnlyOffRelay(relay, events[..|events| - 1]);
    }
  }

  /** A step that gives up watching without going back to the relay: any other
      path's removal, or a fallback that could not be preferred. */
  ghost predicate Abandons(r: Receiver, e: Event)
  {
    Handles(r, e) && r.migratedSince.Some? &&
    ((e.PathRemoved? && e.pair != r.relay) || (e.Tick? && Expired(r, e.now) && !e.prefers))
  }

  /** A step on which a path is preferred. */
  ghost predicate Prefers(r: Receiver, e: Event)
  {
    Handles(r, e) && ((e.MoveAsked? && e.prefers) || (e.Tick? && Expired(r, e.now) && e.prefers))
  }

  ghost predicate Unwatched(r: Receiver)
  {
    r.active != r.relay && r.migratedSince.None?
  }

  lemma StepUnwatched(r: Receiver, e: Event)
    requires ArmedOffRelay(r)
    ensures Unwatched(Step(r, e)) <==> Abandons(r, e) || (Unwatched(r) && !Prefers(r, e))
  {}

  /** The converse fails, and exactly so: traffic is off the relay with nobody
      watching it if and only if some step abandoned the watch and no path has
      been preferred since. */
  lemma {:induction false} UnwatchedExactlyWhenAbandoned(relay: Pair, events: seq<Event>)
    ensures Unwatched(Run(relay, events)) <==>
            exists i | 0 <= i < |events| :: AbandonedAt(relay, events, i)
    decreases |events|
  {
    hide Step, Abandons, Prefers, AbandonedAt, Unwatched;
    if events == [] {
      StartIsWatched(relay);
    } else {
      var n := |events| - 1;
      var front := events[..n];
      var r := Run(relay, front);
      UnwatchedExactlyWhenAbandoned(relay, front);
      WatchdogOnlyOffRelay(relay, front);
      StepUnwatched(r, events[n]);
      forall i | 0 <= i < n
        ensures AbandonedAt(relay, events, i) <==> AbandonedAt(relay, front, i) && !Prefers(r, events[n])
      {
        AbandonedExtends(relay, events, i);
      }
      AbandonedLast(relay, events);
    }
  }

  lemma StartIsWatched(relay: Pair)
    ensures !Unwatched(Start(relay))
  {}

  lemma AbandonedLast(relay: Pair, events: seq<Event>)
    requires events != []
    ensures var n := |events| - 1;
            AbandonedAt(relay, events, n) <==> Abandons(Run(relay, events[..n]), events[n])
  {}

  ghost predicate AbandonedAt(relay: Pair, events: seq<Event>, i: nat)
    requires i < |events|
  {
    && Abandons(Run(relay, events[..i]), events[i])
    && forall j | i < j < |events| :: !Prefers(Run(relay, events[..j]), events[j])
  }

  lemma AbandonedExtends(relay: Pair, events: seq<Event>, i: nat)
    requires i < |events| - 1
    ensures var n := |events| - 1;
            AbandonedAt(relay, events, i) <==>
            AbandonedAt(relay, events[..n], i) && !Prefers(Run(relay, events[..n]), events[n])
  {
    hide Abandons, Prefers, Run;
    var n := |events| - 1;
    var front := events[..n];
    assert forall j | 0 <= j < n :: front[..j] == events[..j] && front[j] == events[j];
  }

  /** A run of that kind: moved onto one direct path, then another one goes away. */
  lemma AnotherPathsRemovalUnwatches(relay: Pair, direct: Pair, other: Pair, id: PathId)
    requires direct != relay && other != relay && other != direct
    ensures Unwatched(Run(relay, [MoveAsked(direct, 0, true), PathRemoved(other, id)]))
  {
    var events := [MoveAsked(direct, 0, true), PathRemoved(other, id)];
    assert events[..1] == [MoveAsked(direct, 0, true)];
    assert events[..1][..0] == [];
    assert Run(relay, events[..1]) == Step(Start(relay), MoveAsked(direct, 0, true));
  }

  predicate Timed(e: Event)
  {
    e.Tick? || e.MoveAsked? || e.StreamAccepted? || e.ReadEnded? || e.Waited?
  }

  function Clock(events: seq<Event>): Time
  {
    if events == [] then 0
    else if Timed(events[|events| - 1]) then events[|events| - 1].now
    else Clock(events[..|events| - 1])
  }

  /** When the loop last handled a tick. */
  function LastTick(relay: Pair, events: seq<Event>): Time
    decreases |events|
  {
    if events == [] then 0
    else
      var front, last := events[..|events| - 1], events[|events| - 1];
      if last.Tick? && Handles(Run(relay, front), last) then last.now else LastTick(relay, front)
  }

  /** When the connection last showed a sign of life worth restarting the clock
      for: a frame's stream, or the move itself. */
  function LastSign(relay: Pair, events: seq<Event>): Time
    decreases |events|
  {
    if events == [] then 0
    else
      var front, last := events[..|events| - 1], events[|events| - 1];
      if (last.StreamAccepted? || (last.MoveAsked? && last.prefers)) && Handles(Run(relay, front), last) then last.now
      else LastSign(relay, front)
  }

  ghost predicate Monotone(events: seq<Event>)
  {
    forall i | 0 <= i < |events| && Timed(events[i]) :: Clock(events[..i]) <= events[i].now
  }

  /** The longest time there has been, at any moment of the run, since the last tick
      that was handled. */
  function LongestGap(relay: Pair, events: seq<Event>): Time
    decreases |events|
  {
    if events == [] then 0
    else
      var front, last := events[..|events| - 1], events[|events| - 1];
      if Timed(last) then Max(LongestGap(relay, front), last.now - LastTick(relay, front)) else LongestGap(relay, front)
  }

  function Max(a: Time, b: int): (m: Time)
    ensures m >= a && m >= b && (m == a || m == b)
  {
    if b > a then b else a
  }

  ghost predicate WatchdogTimes(relay: Pair, events: seq<Event>)
  {
    var r := Run(relay, events);
    && LastTick(relay, events) <= Clock(events) <= LastTick(relay, events) + LongestGap(relay, events)
    && (r.running && r.migratedSince.Some? ==>
          && r.migratedSince.value == LastSign(relay, events) <= Clock(events)
          && LastTick(relay, events) - r.migratedSince.value < MIGRATED_PATH_GRACE)
  }

  lemma MonotoneFront(events: seq<Event>)
    requires events != [] && Monotone(events)
    ensures Monotone(events[..|events| - 1])
    ensures Timed(events[|events| - 1]) ==> Clock(events[..|events| - 1]) <= events[|events| - 1].now
  {
    hide Clock;
    var front := events[..|events| - 1];
    assert forall i | 0 <= i < |front| :: front[..i] == events[..i] && front[i] == events[i];
  }

  lemma {:induction false} WatchdogTimesHold(relay: Pair, events: seq<Event>)
    requires Monotone(events)
    ensures WatchdogTimes(relay, events)
    decreases |events|
  {
    hide Monotone;
    if events != [] {
      MonotoneFront(events);
      WatchdogTimesHold(relay, events[..|events| - 1]);
    }
  }

  /** Whatever holds the loop up, and for however long: while the watchdog is armed,
      the last frame's stream or the move itself is younger than the grace plus the
      longest time the loop has been without a tick. */
  lemma ArmedMeansRecentTraffic(relay: Pair, events: seq<Event>)
    requires Monotone(events)
    requires var r := Run(relay, events);
             r.running && r.migratedSince.Some?
    ensures 0 <= Clock(events) - LastSign(relay, events) < 5_000 + LongestGap(relay, events)
  {
    WatchdogTimesHold(relay, events);
  }

  /** That longest time was really reached. */
  lemma {:induction false} LongestGapIsReached(relay: Pair, events: seq<Event>)
    ensures var gap := LongestGap(relay, events);
            gap == 0 || exists i | 0 <= i < |events| && Timed(events[i]) :: events[i].now - LastTick(relay, events[..i]) == gap
    decreases |events|
  {
    if events != [] {
      var n := |events| - 1;
      var front := events[..n];
      LongestGapIsReached(relay, front);
      assert forall i | 0 <= i < n :: front[..i] == events[..i] && front[i] == events[i];
    }
  }

  /** The time spent inside reads since the last tick that was handled. */
  function Held(relay: Pair, events: seq<Event>): Time
    decreases |events|
  {
    if events == [] then 0
    else
      var front, last := events[..|events| - 1], events[|events| - 1];
      var r := Run(relay, front);
      if last.Tick? && Handles(r, last) then 0
      else Max(0, Held(relay, front) + (if r.reading && Timed(last) then last.now - Clock(front) else 0))
  }

  /** The most time spent inside reads between two ticks. */
  function MostHeld(relay: Pair, events: seq<Event>): Time
    decreases |events|
  {
    if events == [] then 0
    else Max(MostHeld(relay, events[..|events| - 1]), Held(relay, events))
  }

  /** What the interval timer provides: not counting the time inside reads, the loop
      comes to a tick every second, or at most `late` after that when other arms or a
      full channel of path events hold it up. */
  ghost predicate TicksEverySecond(relay: Pair, events: seq<Event>, late: Time)
  {
    forall i | 0 <= i < |events| && Timed(events[i]) ::
      var r := Run(relay, events[..i]);
      events[i].now - LastTick(relay, events[..i]) <=
      1_000 + late + Held(relay, events[..i]) + (if r.reading then events[i].now - Clock(events[..i]) else 0)
  }

  lemma TicksFront(relay: Pair, events: seq<Event>, late: Time)
    requires events != [] && TicksEverySecond(relay, events, late)
    ensures TicksEverySecond(relay, events[..|events| - 1], late)
    ensures var front, last := events[..|events| - 1], events[|events| - 1];
            var held := if Timed(last) && Run(relay, front).reading then last.now - Clock(front) else 0;
            Timed(last) ==> last.now - LastTick(relay, front) <= 1_000 + late + Held(relay, front) + held
  {
    hide Clock, Run, LastTick, Held;
    var front := events[..|events| - 1];
    assert forall i | 0 <= i < |front| :: front[..i] == events[..i] && front[i] == events[i];
  }

  lemma {:induction false} GapsAreBounded(relay: Pair, events: seq<Event>, late: Time)
    requires Monotone(events) && TicksEverySecond(relay, events, late)
    ensures LongestGap(relay, events) <= 1_000 + late + MostHeld(relay, events)
    decreases |events|
  {
    hide Monotone, TicksEverySecond, Run, Clock;
    if events != [] {
      var front, last := events[..|events| - 1], events[|events| - 1];
      MonotoneFront(events);
      TicksFront(relay, events, late);
      GapsAreBounded(relay, front, late);
      if last.Tick? && Handles(Run(relay, front), last) {
        HeldWithin(relay, front);
      }
    }
  }

  /** So was the most time inside reads. */
  lemma {:induction false} MostHeldIsReached(relay: Pair, events: seq<Event>)
    ensures MostHeld(relay, events) == 0 || exists i | 0 <= i <= |events| :: Held(relay, events[..i]) == MostHeld(relay, events)
    decreases |events|
  {
    if events != [] {
      var n := |events| - 1;
      MostHeldIsReached(relay, events[..n]);
      assert events[..n + 1] == events;
      assert forall i | 0 <= i <= n :: events[..n][..i] == events[..i];
    }
  }

  lemma HeldWithin(relay: Pair, events: seq<Event>)
    ensures Held(relay, events) <= MostHeld(relay, events)
  {}

  /** So a direct path carries nothing for less than six seconds plus the time the
      loop was held inside reads, before the watchdog has given it up. */
  lemma QuietPathIsGivenUp(relay: Pair, events: seq<Event>, late: Time)
    requires Monotone(events) && TicksEverySecond(relay, events, late)
    requires var r := Run(relay, events);
             r.running && r.migratedSince.Some?
    ensures Clock(events) - LastSign(relay, events) <
            6_000 + late + MostHeld(relay, events)
  {
    ArmedMeansRecentTraffic(relay, events);
    GapsAreBounded(relay, events, late);
  }

  /** The time inside reads has no bound of its own: one read that does not end keeps
      the watchdog armed for as long as one likes, with a timer that is never late. */
  lemma StalledReadHoldsTheWatchdog(relay: Pair, direct: Pair, long: Time)
    requires direct != relay
    ensures var events := [MoveAsked(direct, 0, true), StreamAccepted(0), Waited(long)];
            && Monotone(events) && TicksEverySecond(relay, events, 0)
            && Run(relay, events).running && Run(relay, events).migratedSince.Some?
            && Clock(events) - LastSign(relay, events) == long
  {
    hide Run, Clock, LastTick, LastSign, Held;
    var one, two := [MoveAsked(direct, 0, true)], [MoveAsked(direct, 0, true), StreamAccepted(0)];
    var events := [MoveAsked(direct, 0, true), StreamAccepted(0), Waited(long)];
    AtTheStart(relay);
    OneMore(relay, [], MoveAsked(direct, 0, true));
    assert [] + [MoveAsked(direct, 0, true)] == one;
    OneMore(relay, one, StreamAccepted(0));
    assert one + [StreamAccepted(0)] == two;
    OneMore(relay, two, Waited(long));
    assert two + [Waited(long)] == events;
    assert events[..0] == [] && events[..1] == one && events[..2] == two;
  }

  lemma AtTheStart(relay: Pair)
    ensures Run(relay, []) == Start(relay)
    ensures Clock([]) == LastTick(relay, []) == LastSign(relay, []) == Held(relay, []) == 0
  {}

  lemma OneMore(relay: Pair, front: seq<Event>, e: Event)
    ensures var events, r := front + [e], Run(relay, front);
            && Run(relay, events) == Step(r, e)
            && Clock(events) == (if Timed(e) then e.now else Clock(front))
            && (!e.Tick? ==> LastTick(relay, events) == LastTick(relay, front))
            && (!Handles(r, e) ==> LastSign(relay, events) == LastSign(relay, front))
            && (Handles(r, e) && e.StreamAccepted? ==> LastSign(relay, events) == e.now)
            && (!e.Tick? && !r.reading ==> Held(relay, events) == Held(relay, front))
            && (e.Tick? && Handles(r, e) ==> Held(relay, events) == 0 && LastTick(relay, events) == e.now)
            && (r.reading && Timed(e) && e.now >= Clock(front) ==>
                  Held(relay, events) == Held(relay, front) + (e.now - Clock(front)))
  {
    assert (front + [e])[..|front|] == front;
  }

  lemma {:induction false} ArmedSinceLastSign(relay: Pair, events: seq<Event>)
    ensures var r := Run(relay, events);
            r.running && r.migratedSince.Some? ==> r.migratedSince.value == LastSign(relay, events)
    decreases |events|
  {
    if events != [] {
      ArmedSinceLastSign(relay, events[..|events| - 1]);
    }
  }

  /** A path that carries frames is kept: over any run, a tick gives up an armed path
      exactly when five seconds have gone by since the last frame's stream, or since
      the move; then the watch is disarmed, and the relay is active and reported if
      that preference succeeds.  Any other tick changes nothing. */
  lemma TickGivesUpExactly(relay: Pair, events: seq<Event>, now: Time, prefers: bool)
    ensures var r, s := Run(relay, events), Run(relay, events + [Tick(now, prefers)]);
            if r.running && !r.reading && r.migratedSince.Some? && now - LastSign(relay, events) >= 5_000 then
              s == if prefers
                   then r.(migratedSince := None, active := relay, reported := r.reported + [Activated(relay)])
                   else r.(migratedSince := None)
            else s == r
  {
    ArmedSinceLastSign(relay, events);
    WatchdogOnlyOffRelay(relay, events);
    assert (events + [Tick(now, prefers)])[..|events|] == events;
  }

  // ----- What is reported, and when it ends -----

  /** What the loop, last given a sign of life at `sign`, has to report of an event. */
  function ReportsOf(r: Receiver, sign: Time, e: Event): seq<PathEvent>
  {
    if !r.running || r.reading then []
    else match e
      case PathValidated(pair) => if pair != r.relay then [DirectValidated(pair)] else []
      case MoveAsked(pair, _, prefers) => if prefers && r.requests then [Activated(pair)] else []
      case Tick(now, prefers) =>
        if prefers && r.migratedSince.Some? && now - sign >= 5_000 then [Activated(r.relay)] else []
      case _ => []
  }

  /** What there was to report, read off the events: validated paths other than the
      relay, and moves that succeeded, asked for or made after five quiet seconds. */
  function Happened(relay: Pair, events: seq<Event>): seq<PathEvent>
    decreases |events|
  {
    if events == [] then []
    else
      var front, last := events[..|events| - 1], events[|events| - 1];
      Happened(relay, front) + ReportsOf(Run(relay, front), LastSign(relay, front), last)
  }

  lemma StepReports(r: Receiver, sign: Time, e: Event)
    requires r.running && r.migratedSince.Some? ==> r.migratedSince.value == sign
    ensures Step(r, e).reported == r.reported + ReportsOf(r, sign, e)
  {}

  /** The reports are the relay and then exactly what happened, in order. */
  lemma {:induction false} ReportsAreWhatHappened(relay: Pair, events: seq<Event>)
    ensures Run(relay, events).reported == [Relay(relay)] + Happened(relay, events)
    decreases |events|
  {
    if events != [] {
      var front := events[..|events| - 1];
      ReportsAreWhatHappened(relay, front);
      ArmedSinceLastSign(relay, front);
      hide Step, ReportsOf, LastSign;
      StepReports(Run(relay, front), LastSign(relay, front), events[|events| - 1]);
    }
  }

  /** What ends the loop when it is handled. */
  ghost predicate EndsLoop(e: Event)
  {
    e.Shutdown? || e.ConnectionEventsEnded? || e.AcceptFailed? || (e.ReadEnded? && !e.ok)
  }

  ghost predicate EndedAt(relay: Pair, events: seq<Event>, i: nat)
    requires i < |events|
  {
    var r := Run(relay, events[..i]);
    EndsLoop(events[i]) && r.running && r.reading == events[i].ReadEnded?
  }

  /** The loop runs on until it is told to stop, the connection's events or its streams
      end, or a read fails, and for no other reason; it asks for moves until the
      requester has gone; and it is inside a read from a stream's acceptance to the
      read's end. */
  lemma {:induction false} RunsUntilItEnds(relay: Pair, events: seq<Event>)
    ensures Run(relay, events).running <==> !exists i | 0 <= i < |events| :: EndedAt(relay, events, i)
    decreases |events|
  {
    if events != [] {
      var n := |events| - 1;
      var front := events[..n];
      RunsUntilItEnds(relay, front);
      forall i | 0 <= i < n
        ensures EndedAt(relay, events, i) <==> EndedAt(relay, front, i)
      {
        assert front[..i] == events[..i] && front[i] == events[i];
      }
      assert EndedAt(relay, events, n) <==>
             EndsLoop(events[n]) && Run(relay, front).running && Run(relay, front).reading == events[n].ReadEnded?;
    }
  }

  lemma StepsInBetween(relay: Pair, events: seq<Event>, e: Event)
    requires var r := Run(relay, events); r.running
    ensures var r, s := Run(relay, events), Run(relay, events + [e]);
            && (s.requests <==> r.requests && !(e.RequesterGone? && !r.reading))
            && (s.reading <==> if r.reading then !e.ReadEnded? else e.StreamAccepted?)
  {
    assert (events + [e])[..|events|] == events;
  }

  // ----- The path map -----

  /** What the connection last told the loop about `pair`, read off the events alone. */
  function LastSaid(relay: Pair, events: seq<Event>, pair: Pair): Option<PathId>
    decreases |events|
  {
    if events == [] then None
    else
      var front, last := events[..|events| - 1], events[|events| - 1];
      if !Handles(Run(relay, front), last) then LastSaid(relay, front, pair)
      else if last.PathAdded? && last.pair == pair then Some(last.id)
      else if last.PathRemoved? && last.pair == pair then None
      else LastSaid(relay, front, pair)
  }

  /** The map is the history: a pair is held under an id exactly when its last
      mention added it with that id, and never the relay. */
  lemma {:induction false} PathMapIsTheHistory(relay: Pair, events: seq<Event>, pair: Pair)
    ensures var paths := Run(relay, events).directPaths;
            (if pair in paths then Some(paths[pair]) else None) ==
            (if pair == relay then None else LastSaid(relay, events, pair))
    decreases |events|
  {
    if events != [] {
      var front := events[..|events| - 1];
      WatchdogOnlyOffRelay(relay, front);
      PathMapIsTheHistory(relay, front, pair);
    }
  }
}
