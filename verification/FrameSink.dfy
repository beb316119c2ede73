/**
 The iOS viewer's frame path: a single-slot sink drained by one worker, and the
 main-actor hops that put decoded pictures on screen.

 The lock's two critical sections are the methods of `ViewerSink`; `Step` puts any
 number of callers, the serial decode queue, the drainer and the main actor
 together, one atomic section at a time, in any order.
 */
module FrameSink {
  import opened Wrappers

  /** A frame: the session it was received in, which no hop carries along, its
      number in that session's connection, and whether its JPEG will decode. */
  datatype Frame = Frame(session: nat, seqNo: nat, decodes: bool)

  // ----- The lock-protected slot -----

  datatype Slot = Slot(pending: Option<Frame>, draining: bool)

  /** The section of `onFrame`: the new slot, and whether this caller starts a drain. */
  function Offer(slot: Slot, frame: Frame): (Slot, bool)
  {
    (Slot(Some(frame), true), !slot.draining)
  }

  /** The section of `drain`: the new slot, and the frame to decode if there is one. */
  function Take(slot: Slot): (Slot, Option<Frame>)
  {
    if slot.pending.None? then (slot.(draining := false), None)
    else (slot.(pending := None), slot.pending)
  }

  class ViewerSink {
    var pending: Option<Frame>
    var draining: bool

    function State(): Slot
      reads this
    {
      Slot(pending, draining)
    }

    constructor ()
      ensures State() == Slot(None, false)
    {
      pending, draining := None, false;
    }

    method OnFrame(frame: Frame) returns (shouldStartDraining: bool)
      modifies this
      ensures (State(), shouldStartDraining) == Offer(old(State()), frame)
    {
      pending := Some(frame);
      shouldStartDraining := !draining;
      draining := true;
    }

    method TakePending() returns (frame: Option<Frame>)
      modifies this
      ensures (State(), frame) == Take(old(State()))
    {
      if pending.None? {
        draining := false;
        return None;
      }
      frame := pending;
      pending := None;
    }
  }

  // ----- The model on the main actor -----

  datatype Phase = Idle | Connecting | ConnectedIdle | Streaming | Closed | Failed
  datatype Model = Model(lastSeq: nat, frame: Option<Frame>, frameCount: nat, phase: Phase)

  function Present(m: Model, frame: Frame): Model
  {
    if !frame.decodes || frame.seqNo < m.lastSeq then m
    else Model(frame.seqNo, Some(frame), m.frameCount + 1, if m.phase == ConnectedIdle then Streaming else m.phase)
  }

  /** The reset at the top of `connect`. */
  function Reset(m: Model): Model
  {
    Model(0, None, 0, Connecting)
  }

  function PresentAll(m: Model, frames: seq<Frame>): Model
    decreases |frames|
  {
    if frames == [] then m else Present(PresentAll(m, frames[..|frames| - 1]), frames[|frames| - 1])
  }

  class ViewerModel {
    var lastSeq: nat
    var frame: Option<Frame>
    var frameCount: nat
    var phase: Phase

    function State(): Model
      reads this
    {
      Model(lastSeq, frame, frameCount, phase)
    }

    constructor ()
      ensures State() == Model(0, None, 0, Idle)
    {
      lastSeq, frame, frameCount, phase := 0, None, 0, Idle;
    }

    method Connect()
      modifies this
      ensures State() == Reset(old(State()))
    {
      frame := None;
      frameCount := 0;
      lastSeq := 0;
      phase := Connecting;
    }

    method PresentFrame(shown: Frame)
      modifies this
      ensures State() == Present(old(State()), shown)
    {
      if !shown.decodes {
        return;
      }
      if !(shown.seqNo >= lastSeq) {
        return;
      }
      lastSeq := shown.seqNo;
      frame := Some(shown);
      frameCount := frameCount + 1;
      if phase == ConnectedIdle {
        phase := Streaming;
      }
    }
  }

  // ----- Everything together -----

  /** The running drain: about to take the lock, or decoding the `at`-th frame. */
  datatype Drainer = AtLock | Decoding(frame: Frame, at: int)

  /** One session's sink, and the model it shares with the sinks of sessions before.
      `dispatching` callers hold "start a drain" but have not queued it; `queued`
      drains wait on the serial queue; `hops` wait for the main actor, and
      `leftover` are those that came from sinks of other sessions. */
  datatype System = System(
    session: nat, slot: Slot, dispatching: nat, queued: nat, drainer: Option<Drainer>,
    hops: seq<Frame>, model: Model,
    submitted: seq<Frame>, decoded: seq<Frame>, decodedAt: seq<int>, leftover: seq<Frame>, delivered: seq<Frame>)

  datatype Action =
    | Submit(frame: Frame)
    | LeftoverHop(frame: Frame)
    | Dispatch
    | StartDrain
    | LockInDrain
    | FinishDecode
    | Deliver(hop: nat)

  function Fresh(m: Model, session: nat): System
  {
    System(session, Slot(None, false), 0, 0, None, [], Reset(m), [], [], [], [], [])
  }

  predicate Enabled(s: System, a: Action)
  {
    match a
    case Submit(frame) => frame.session == s.session
    case LeftoverHop(frame) => frame.session != s.session
    case Dispatch => s.dispatching > 0
    case StartDrain => s.queued > 0 && s.drainer.None?
    case LockInDrain => s.drainer == Some(AtLock)
    case FinishDecode => s.drainer.Some? && s.drainer.value.Decoding?
    case Deliver(hop) => hop < |s.hops|
  }

  /** One atomic section; an action that is not enabled does not happen. */
  function Step(s: System, a: Action): System
  {
    if !Enabled(s, a) then s
    else match a
      case Submit(frame) =>
        var (slot, start) := Offer(s.slot, frame);
        s.(slot := slot, dispatching := s.dispatching + (if start then 1 else 0), submitted := s.submitted + [frame])
      case LeftoverHop(frame) => s.(hops := s.hops + [frame], leftover := s.leftover + [frame])
      case Dispatch => s.(dispatching := s.dispatching - 1, queued := s.queued + 1)
      case StartDrain => s.(queued := s.queued - 1, drainer := Some(AtLock))
      case LockInDrain =>
        var (slot, frame) := Take(s.slot);
        s.(slot := slot, drainer := if frame.None? then None else Some(Decoding(frame.value, |s.submitted| - 1)))
      case FinishDecode =>
        var Decoding(frame, at) := s.drainer.value;
        s.(drainer := Some(AtLock), hops := s.hops + [frame],
           decoded := s.decoded + [frame], decodedAt := s.decodedAt + [at])
      case Deliver(hop) =>
        s.(hops := s.hops[..hop] + s.hops[hop + 1..], delivered := s.delivered + [s.hops[hop]],
           model := Present(s.model, s.hops[hop]))
  }

  function Run(m: Model, session: nat, actions: seq<Action>): System
    decreases |actions|
  {
    if actions == [] then Fresh(m, session)
    else Step(Run(m, session, actions[..|actions| - 1]), actions[|actions| - 1])
  }

  /** How many drains are about to be dispatched, queued or running. */
  function Drains(s: System): nat
  {
    s.dispatching + s.queued + if s.drainer.Some? then 1 else 0
  }

  /** The frame about to be decoded or just decoded last, by its place among the
      submissions; -1 before the first. */
  function LastTaken(s: System): int
  {
    if s.drainer.Some? && s.drainer.value.Decoding? then s.drainer.value.at
    else if s.decodedAt == [] then -1
    else s.decodedAt[|s.decodedAt| - 1]
  }

  ghost predicate OneDrainer(s: System)
  {
    && Drains(s) <= 1
    && (s.slot.draining <==> Drains(s) == 1)
    && (!s.slot.draining ==> s.slot.pending.None?)
  }

  /** Decoded frames are a subsequence of the submitted ones, and whatever was
      submitted last is in the slot unless it has been taken. */
  ghost predicate Subsequence(s: System)
  {
    && |s.decoded| == |s.decodedAt|
    && (forall k | 0 <= k < |s.decodedAt| ::
          && 0 <= s.decodedAt[k] < |s.submitted| && s.decodedAt[k] <= LastTaken(s)
          && s.decoded[k] == s.submitted[s.decodedAt[k]])
    && (forall j, k | 0 <= j < k < |s.decodedAt| :: s.decodedAt[j] < s.decodedAt[k])
  }

  ghost predicate LatestIsHeld(s: System)
  {
    && -1 <= LastTaken(s) < |s.submitted|
    && (s.drainer.Some? && s.drainer.value.Decoding? ==>
          && 0 <= s.drainer.value.at && s.drainer.value.frame == s.submitted[s.drainer.value.at]
          && (forall k | 0 <= k < |s.decodedAt| :: s.decodedAt[k] < s.drainer.value.at))
    && (s.slot.pending.Some? ==>
          LastTaken(s) < |s.submitted| - 1 && s.slot.pending.value == s.submitted[|s.submitted| - 1])
    && (s.slot.pending.None? ==> LastTaken(s) == |s.submitted| - 1)
  }

  /** Every decoded or left-over picture is on its way or has landed, and the two
      kinds are of different sessions. */
  ghost predicate HopsAddUp(s: System)
  {
    && Balanced(s.decoded, s.leftover, s.hops, s.delivered)
    && (forall f | f in s.leftover :: f.session != s.session)
  }

  ghost predicate OwnSession(s: System)
  {
    && (forall f | f in s.submitted :: f.session == s.session)
    && (forall f | f in s.decoded :: f.session == s.session)
    && (s.slot.pending.Some? ==> s.slot.pending.value.session == s.session)
    && (s.drainer.Some? && s.drainer.value.Decoding? ==> s.drainer.value.frame.session == s.session)
  }

  ghost predicate Inv(s: System)
  {
    OneDrainer(s) && LatestIsHeld(s) && Subsequence(s) && HopsAddUp(s) && OwnSession(s)
  }

  lemma StepKeepsDrainInv(s: System, a: Action)
    requires OneDrainer(s) && LatestIsHeld(s) && Subsequence(s)
    ensures OneDrainer(Step(s, a)) && LatestIsHeld(Step(s, a)) && Subsequence(Step(s, a))
  {
    StepKeepsOneDrainer(s, a);
    StepKeepsSubsequence(s, a);
  }

  lemma StepKeepsOneDrainer(s: System, a: Action)
    requires OneDrainer(s)
    ensures OneDrainer(Step(s, a))
  {}

  lemma StepKeepsSubsequence(s: System, a: Action)
    requires OneDrainer(s) && LatestIsHeld(s) && Subsequence(s)
    ensures LatestIsHeld(Step(s, a)) && Subsequence(Step(s, a))
  {
    if Enabled(s, a) {
      match a
      case Submit(_) =>
      case LockInDrain =>
      case FinishDecode =>
      case _ =>
    }
  }

  ghost predicate Balanced(made: seq<Frame>, alsoMade: seq<Frame>, waiting: seq<Frame>, landed: seq<Frame>)
  {
    multiset(made) + multiset(alsoMade) == multiset(waiting) + multiset(landed)
  }

  lemma BalanceOneMore(made: seq<Frame>, alsoMade: seq<Frame>, waiting: seq<Frame>, landed: seq<Frame>, f: Frame)
    requires Balanced(made, alsoMade, waiting, landed)
    ensures Balanced(made + [f], alsoMade, waiting + [f], landed)
    ensures Balanced(made, alsoMade + [f], waiting + [f], landed)
  {
    var m, a := multiset(made), multiset(alsoMade);
    assert (m + multiset{f}) + a == (m + a) + multiset{f} == m + (a + multiset{f});
  }

  lemma BalanceLanding(made: seq<Frame>, alsoMade: seq<Frame>, waiting: seq<Frame>, landed: seq<Frame>, i: nat)
    requires i < |waiting| && Balanced(made, alsoMade, waiting, landed)
    ensures Balanced(made, alsoMade, waiting[..i] + waiting[i + 1..], landed + [waiting[i]])
  {
    assert waiting == waiting[..i] + [waiting[i]] + waiting[i + 1..];
  }

  lemma StepKeepsHops(s: System, a: Action)
    requires HopsAddUp(s)
    ensures HopsAddUp(Step(s, a))
  {
    hide Balanced, Present, Offer, Take;
    if Enabled(s, a) {
      match a
      case LeftoverHop(frame) => BalanceOneMore(s.decoded, s.leftover, s.hops, s.delivered, frame);
      case FinishDecode => BalanceOneMore(s.decoded, s.leftover, s.hops, s.delivered, s.drainer.value.frame);
      case Deliver(hop) => BalanceLanding(s.decoded, s.leftover, s.hops, s.delivered, hop);
      case _ =>
    }
  }

  lemma StepKeepsSession(s: System, a: Action)
    requires OwnSession(s)
    ensures OwnSession(Step(s, a)) && Step(s, a).session == s.session
  {
    hide Present;
  }

  /** Over every interleaving: one drainer at most, the flag says so exactly, an
      idle slot is an empty slot, and the decoded frames are a strictly increasing
      subsequence of the submitted ones. */
  lemma {:induction false} InterleavingsKeepInv(m: Model, session: nat, actions: seq<Action>)
    ensures Inv(Run(m, session, actions)) && Run(m, session, actions).session == session
    decreases |actions|
  {
    hide Step;
    if actions != [] {
      var before := Run(m, session, actions[..|actions| - 1]);
      InterleavingsKeepInv(m, session, actions[..|actions| - 1]);
      StepKeepsDrainInv(before, actions[|actions| - 1]);
      StepKeepsHops(before, actions[|actions| - 1]);
      StepKeepsSession(before, actions[|actions| - 1]);
    }
  }

  ghost predicate Quiescent(s: System)
  {
    Drains(s) == 0
  }

  /** No lost wakeup: when nothing is left to run, the last frame submitted has
      been decoded. */
  lemma QuiescenceDecodedTheLatest(m: Model, session: nat, actions: seq<Action>)
    requires var s := Run(m, session, actions); Quiescent(s) && s.submitted != []
    ensures var s := Run(m, session, actions);
            && s.slot == Slot(None, false)
            && s.decoded != [] && |s.decodedAt| == |s.decoded|
            && s.decoded[|s.decoded| - 1] == s.submitted[|s.submitted| - 1]
            && s.decodedAt[|s.decodedAt| - 1] == |s.submitted| - 1
  {
    InterleavingsKeepInv(m, session, actions);
  }

  /** What remains to be done before the sink is idle. */
  function Remaining(s: System): nat
  {
    3 * s.dispatching + 2 * s.queued
    + (if s.drainer.None? then 0 else if s.drainer.value.AtLock? then 1 else 2)
    + (if s.slot.pending.Some? then 2 else 0)
  }

  predicate DrainAction(a: Action)
  {
    a.Dispatch? || a.StartDrain? || a.LockInDrain? || a.FinishDecode?
  }

  /** The one thing the sink can do next, while it is not idle. */
  function NextDrainAction(s: System): (a: Action)
    ensures DrainAction(a)
  {
    if s.dispatching > 0 then Dispatch
    else if s.queued > 0 then StartDrain
    else if s.drainer == Some(AtLock) then LockInDrain
    else FinishDecode
  }

  /** And it gets there: in any reachable state that is not idle a drain action is
      enabled, every one that runs brings idleness closer, and at most five are
      left. */
  lemma DrainsMakeProgress(m: Model, session: nat, actions: seq<Action>, a: Action)
    requires DrainAction(a)
    ensures var s := Run(m, session, actions);
            && Remaining(s) <= 5
            && (!Quiescent(s) ==> Enabled(s, NextDrainAction(s)))
            && (Enabled(s, a) ==> Remaining(Step(s, a)) < Remaining(s))
            && (Remaining(s) == 0 ==> Quiescent(s))
  {
    InterleavingsKeepInv(m, session, actions);
  }

  // ----- What ends up on screen -----

  /** The largest sequence number among the frames that decode; 0 when none does,
      as in a fresh model. */
  function MaxSeq(frames: seq<Frame>): nat
  {
    if frames == [] then 0
    else
      var rest := MaxSeq(frames[..|frames| - 1]);
      var last := frames[|frames| - 1];
      if last.decodes && last.seqNo > rest then last.seqNo else rest
  }

  lemma {:induction false} MaxSeqBounds(frames: seq<Frame>)
    ensures forall f | f in frames && f.decodes :: f.seqNo <= MaxSeq(frames)
    ensures MaxSeq(frames) == 0 || exists f :: f in frames && f.decodes && f.seqNo == MaxSeq(frames)
  {
    if frames != [] {
      var front, last := frames[..|frames| - 1], frames[|frames| - 1];
      MaxSeqBounds(front);
      assert forall f :: f in frames <==> f in front || f == last;
    }
  }

  /** In whatever order the hops land, the screen ends on the largest number that
      was delivered, and shows a frame as soon as one decodes. */
  lemma {:induction false} ScreenShowsTheMaximum(m: Model, frames: seq<Frame>)
    ensures var end := PresentAll(Reset(m), frames);
            && end.lastSeq == MaxSeq(frames)
            && (end.frame.Some? <==> exists f :: f in frames && f.decodes)
            && (end.frame.Some? ==> end.frame.value in frames && end.frame.value.decodes
                                    && end.frame.value.seqNo == end.lastSeq)
    decreases |frames|
  {
    if frames != [] {
      var front, last := frames[..|frames| - 1], frames[|frames| - 1];
      ScreenShowsTheMaximum(m, front);
      MaxSeqBounds(front);
      assert forall f :: f in frames <==> f in front || f == last;
      if last.decodes {
        assert last in frames;
      }
    }
  }

  /** The displayed number never decreases. */
  lemma {:induction false} ScreenNeverGoesBack(m: Model, frames: seq<Frame>, k: nat)
    requires k <= |frames|
    ensures PresentAll(m, frames[..k]).lastSeq <= PresentAll(m, frames).lastSeq
    decreases |frames|
  {
    if k == |frames| {
      assert frames[..k] == frames;
    } else {
      assert frames[..|frames| - 1][..k] == frames[..k];
      ScreenNeverGoesBack(m, frames[..|frames| - 1], k);
    }
  }

  /** A new session starts with no picture, none counted, at number 0, connecting. */
  lemma ConnectStartsOver(m: Model)
    ensures Reset(m) == Model(0, None, 0, Connecting)
    ensures ShownAt(Reset(m), []) == {} && PresentAll(Reset(m), []) == Reset(m)
  {}

  /** Whether the `i`-th hop to land is shown: it decodes, and nothing that decodes and
      landed before it is numbered higher. */
  ghost predicate IsShown(m: Model, frames: seq<Frame>, i: nat)
    requires i < |frames|
  {
    && frames[i].decodes && frames[i].seqNo >= m.lastSeq
    && forall j | 0 <= j < i && frames[j].decodes :: frames[j].seqNo <= frames[i].seqNo
  }

  lemma {:induction false} LastSeqIsTheLargest(m: Model, frames: seq<Frame>)
    ensures var last := PresentAll(m, frames).lastSeq;
            && last >= m.lastSeq
            && (forall j | 0 <= j < |frames| && frames[j].decodes :: frames[j].seqNo <= last)
            && (last == m.lastSeq || exists j | 0 <= j < |frames| && frames[j].decodes :: frames[j].seqNo == last)
    decreases |frames|
  {
    if frames != [] {
      var n := |frames| - 1;
      var front := frames[..n];
      LastSeqIsTheLargest(m, front);
      assert forall j | 0 <= j < n :: front[j] == frames[j];
    }
  }

  /** The places of the hops that are shown. */
  ghost function ShownAt(m: Model, frames: seq<Frame>): set<nat>
  {
    set i: nat | i < |frames| && IsShown(m, frames, i)
  }

  lemma ShownAtPush(m: Model, frames: seq<Frame>)
    requires frames != []
    ensures var n := |frames| - 1;
            && n !in ShownAt(m, frames[..n])
            && ShownAt(m, frames) == ShownAt(m, frames[..n]) + (if IsShown(m, frames, n) then {n} else {})
  {
    var n := |frames| - 1;
    var front := frames[..n];
    forall i: nat | i < n
      ensures IsShown(m, front, i) <==> IsShown(m, frames, i)
    {
      assert forall j | 0 <= j <= i :: front[j] == frames[j];
    }
  }

  lemma LastIsShown(m: Model, frames: seq<Frame>)
    requires frames != []
    ensures var n := |frames| - 1;
            IsShown(m, frames, n) <==> frames[n].decodes && frames[n].seqNo >= PresentAll(m, frames[..n]).lastSeq
  {
    hide PresentAll;
    var n := |frames| - 1;
    LastSeqIsTheLargest(m, frames[..n]);
    assert forall j | 0 <= j < n :: frames[..n][j] == frames[j];
  }

  /** The counter counts the pictures shown, and the first one shown turns a connected
      session into a streaming one; no other phase is changed by a picture. */
  lemma {:induction false} PicturesAreCounted(m: Model, frames: seq<Frame>)
    ensures var end := PresentAll(m, frames);
            && end.frameCount == m.frameCount + |ShownAt(m, frames)|
            && end.phase == if m.phase == ConnectedIdle && ShownAt(m, frames) != {} then Streaming else m.phase
    decreases |frames|
  {
    if frames == [] {
      assert ShownAt(m, frames) == {};
    } else {
      PicturesAreCounted(m, frames[..|frames| - 1]);
      LastIsShown(m, frames);
      ShownAtPush(m, frames);
      hide IsShown, ShownAt;
    }
  }

  lemma OrderDoesNotMatter(a: seq<Frame>, b: seq<Frame>)
    requires multiset(a) == multiset(b)
    ensures MaxSeq(a) == MaxSeq(b)
  {
    MaxSeqBounds(a);
    MaxSeqBounds(b);
    assert forall f :: f in a <==> f in multiset(a);
    assert forall f :: f in b <==> f in multiset(b);
  }

  lemma {:induction false} ModelIsWhatWasDelivered(m: Model, session: nat, actions: seq<Action>)
    ensures var s := Run(m, session, actions);
            s.model == PresentAll(Reset(m), s.delivered)
    decreases |actions|
  {
    if actions != [] {
      var front, last := actions[..|actions| - 1], actions[|actions| - 1];
      var before := Run(m, session, front);
      ModelIsWhatWasDelivered(m, session, front);
      if last.Deliver? && Enabled(before, last) {
        assert (before.delivered + [before.hops[last.hop]])[..|before.delivered|] == before.delivered;
      }
    }
  }

  ghost predicate Upward(frames: seq<Frame>)
  {
    forall i, j | 0 <= i < j < |frames| :: frames[i].seqNo < frames[j].seqNo
  }

  // ----- Leftovers of the session before -----

  /** Landing where they did, `landed[j]` does not displace `landed[i]`. */
  ghost predicate Outlasts(landed: seq<Frame>, i: nat, j: nat)
    requires i < |landed| && j < |landed|
  {
    landed[j].decodes ==> landed[j].seqNo < landed[i].seqNo || (landed[j].seqNo == landed[i].seqNo && j <= i)
  }

  /** The picture on screen is the last to land among those with the largest number. */
  lemma {:induction false} ScreenShowsTheLastOfTheLargest(m: Model, landed: seq<Frame>, i: nat)
    requires i < |landed| && landed[i].decodes
    requires forall j | 0 <= j < |landed| :: Outlasts(landed, i, j)
    ensures PresentAll(Reset(m), landed).frame == Some(landed[i])
    decreases |landed|
  {
    hide Present, Reset;
    var n := |landed| - 1;
    var front := landed[..n];
    assert Outlasts(landed, i, n);
    if i == n {
      ScreenShowsTheMaximum(m, front);
      MaxSeqBounds(front);
      forall f | f in front && f.decodes
        ensures f.seqNo <= landed[i].seqNo
      {
        var j :| 0 <= j < n && front[j] == f;
        assert Outlasts(landed, i, j);
      }
      PresentsUnlessOlder(PresentAll(Reset(m), front), landed[n]);
    } else {
      assert forall j | 0 <= j < n :: front[j] == landed[j] && Outlasts(landed, i, j);
      assert forall j | 0 <= j < n :: Outlasts(front, i, j);
      ScreenShowsTheLastOfTheLargest(m, front, i);
      ScreenShowsTheMaximum(m, front);
      PresentsUnlessOlder(PresentAll(Reset(m), front), landed[n]);
    }
  }

  lemma PresentsUnlessOlder(m: Model, frame: Frame)
    ensures Present(m, frame).frame == if frame.decodes && frame.seqNo >= m.lastSeq then Some(frame) else m.frame
  {}

  lemma {:induction false} SomethingOutlasts(landed: seq<Frame>) returns (i: nat)
    requires exists f :: f in landed && f.decodes
    ensures i < |landed| && landed[i].decodes
    ensures forall j | 0 <= j < |landed| :: Outlasts(landed, i, j)
    decreases |landed|
  {
    var n := |landed| - 1;
    var front := landed[..n];
    if exists f :: f in front && f.decodes {
      i := SomethingOutlasts(front);
      assert forall j | 0 <= j < n :: front[j] == landed[j] && Outlasts(front, i, j);
      if landed[n].decodes && landed[n].seqNo >= landed[i].seqNo {
        i := n;
      }
    } else {
      i := n;
      assert forall j | 0 <= j < n :: landed[j] in front;
    }
  }

  /** After `connect` has reset the counter, hops left over from sessions before land
      among the new session's own.  The picture the screen ends on is the new
      session's exactly when one of its frames outlasts every leftover that decodes:
      numbered higher, or numbered the same and landed later. */
  lemma LeftoversHideTheNewSessionExactly(m: Model, session: nat, landed: seq<Frame>)
    ensures var end := PresentAll(Reset(m), landed).frame;
            (end.Some? && end.value.session == session) <==>
            exists i | 0 <= i < |landed| ::
              && landed[i].session == session && landed[i].decodes
              && forall j | 0 <= j < |landed| && landed[j].session != session :: Outlasts(landed, i, j)
  {
    hide PresentAll, Reset;
    ScreenShowsTheMaximum(m, landed);
    if exists f :: f in landed && f.decodes {
      var last := SomethingOutlasts(landed);
      ScreenShowsTheLastOfTheLargest(m, landed, last);
      forall i | 0 <= i < |landed| && landed[i].decodes && landed[i].session == session != landed[last].session
        ensures !Outlasts(landed, i, last)
      {
        assert Outlasts(landed, last, i);
      }
    } else {
      assert forall i | 0 <= i < |landed| :: landed[i] in landed;
    }
  }

  /** Stream ids start over with every connection, so equal numbers are ordinary:
      a leftover that lands second replaces the new session's picture and is counted
      as its second frame. */
  lemma EqualLeftoverReplacesThePicture(m: Model, session: nat, before: nat, seqNo: nat)
    requires session != before
    ensures var own, stale := Frame(session, seqNo, true), Frame(before, seqNo, true);
            var end := PresentAll(Reset(m), [own, stale]);
            end.frame == Some(stale) && end.frameCount == 2 && end.lastSeq == seqNo
  {
    var own, stale := Frame(session, seqNo, true), Frame(before, seqNo, true);
    assert [own, stale][..1] == [own];
    assert [own][..0] == [];
    assert PresentAll(Reset(m), [own]) == Present(Reset(m), own);
  }

  // ----- End to end -----

  /** Once everything has run, in any order, the screen is at the largest number that
      was decoded or left over; and when the stream numbers its frames upward and the
      last one decodes, the screen shows that last frame exactly when it outlasts
      every leftover.  Without leftovers it always does. */
  lemma ScreenEndsOnTheNewestFrame(m: Model, session: nat, actions: seq<Action>)
    requires var s := Run(m, session, actions); Quiescent(s) && s.hops == [] && s.submitted != []
    ensures var s := Run(m, session, actions);
            s.model.lastSeq == MaxSeq(s.decoded + s.leftover)
    ensures var s := Run(m, session, actions);
            var newest := s.submitted[|s.submitted| - 1];
            Upward(s.submitted) && newest.decodes ==>
              (s.model.frame == Some(newest) <==>
                 exists i | 0 <= i < |s.delivered| ::
                   && s.delivered[i] == newest
                   && forall j | 0 <= j < |s.delivered| && s.delivered[j].session != session :: Outlasts(s.delivered, i, j))
    ensures var s := Run(m, session, actions);
            var newest := s.submitted[|s.submitted| - 1];
            Upward(s.submitted) && newest.decodes && s.leftover == [] ==> s.model.frame == Some(newest)
  {
    hide Run, MaxSeq, PresentAll, LatestIsHeld, OneDrainer, Outlasts;
    var s := Run(m, session, actions);
    InterleavingsKeepInv(m, session, actions);
    QuiescenceDecodedTheLatest(m, session, actions);
    assert multiset(s.decoded + s.leftover) == multiset(s.delivered);
    ModelIsWhatWasDelivered(m, session, actions);
    ScreenShowsTheMaximum(m, s.delivered);
    OrderDoesNotMatter(s.decoded + s.leftover, s.delivered);
    if Upward(s.submitted) && s.submitted[|s.submitted| - 1].decodes {
      NewestIsShownExactly(m, s);
    }
  }

  lemma NewestIsShownExactly(m: Model, s: System)
    requires Inv(s) && Upward(s.submitted) && s.hops == []
    requires s.model == PresentAll(Reset(m), s.delivered)
    requires s.decoded != [] && s.decoded[|s.decoded| - 1] == s.submitted[|s.submitted| - 1]
    requires s.decoded[|s.decoded| - 1].decodes
    ensures s.model.frame == Some(s.submitted[|s.submitted| - 1]) <==>
            exists i | 0 <= i < |s.delivered| ::
              && s.delivered[i] == s.submitted[|s.submitted| - 1]
              && forall j | 0 <= j < |s.delivered| && s.delivered[j].session != s.session :: Outlasts(s.delivered, i, j)
    ensures s.leftover == [] ==> s.model.frame == Some(s.submitted[|s.submitted| - 1])
  {
    hide PresentAll, Reset;
    var newest := s.submitted[|s.submitted| - 1];
    assert newest in s.decoded;
    assert multiset(s.decoded + s.leftover) == multiset(s.delivered);
    assert newest in multiset(s.decoded + s.leftover) && newest in s.delivered;
    var n :| 0 <= n < |s.delivered| && s.delivered[n] == newest;
    var last := SomethingOutlasts(s.delivered);
    ScreenShowsTheLastOfTheLargest(m, s.delivered, last);
    assert Outlasts(s.delivered, last, n);
    if s.delivered[last].session == s.session {
      OwnFrameIsDecoded(s, last);
    } else {
      forall i | 0 <= i < |s.delivered| && s.delivered[i] == newest
        ensures !Outlasts(s.delivered, i, last)
      {
        assert Outlasts(s.delivered, last, i);
      }
    }
    if s.leftover == [] {
      assert s.decoded + s.leftover == s.decoded;
      assert s.delivered[last] in multiset(s.delivered);
    }
  }

  /** A landed frame of this session was decoded here, so none is numbered above the
      newest. */
  lemma OwnFrameIsDecoded(s: System, i: nat)
    requires Inv(s) && Upward(s.submitted) && s.hops == [] && s.submitted != []
    requires i < |s.delivered| && s.delivered[i].session == s.session
    ensures s.delivered[i].seqNo <= s.submitted[|s.submitted| - 1].seqNo
    ensures s.delivered[i].seqNo == s.submitted[|s.submitted| - 1].seqNo ==>
              s.delivered[i] == s.submitted[|s.submitted| - 1]
  {
    var f := s.delivered[i];
    assert multiset(s.decoded + s.leftover) == multiset(s.delivered);
    assert f in multiset(s.delivered) && f in s.decoded + s.leftover;
    assert f !in s.leftover;
    var k :| 0 <= k < |s.decoded| && s.decoded[k] == f;
    assert s.submitted[s.decodedAt[k]] == f;
  }
}
