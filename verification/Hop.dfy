/**
 The datapath hop: one socket between a dialling end and a listener, with a hook
 that may drop packets either way, and the hook that eats the answer to a path
 challenge.

 What the socket delivers, whether a send succeeds and, in general, what the hook
 decides are part of each event, so the hop's theorems hold for every hook.
 */
module Hop {
  import opened Wrappers
  import opened VarInt

  type Address = nat
  type Packet = seq<Byte>
  datatype Verdict = Pass | Drop

  /** One result of waiting on the socket; `verdict` and `sends` are what the hook
      and `send_to` would answer, were they asked. */
  datatype Event =
    | Receipt(packet: Packet, from: Address, verdict: Verdict, sends: bool)
    | ConnectionReset
    | ReceiveFailed
    | Shutdown

  datatype Outcome =
    | NotAPacket
    | ReplyBeforeDial
    | Stranger
    | HookDropped
    | SendFailed
    | Forwarded(to: Address)

  datatype HopState = HopState(
    dialler: Option<Address>, saidSendFailed: bool, outcomes: seq<Outcome>, sent: seq<(Packet, Address)>)

  const NEW_HOP := HopState(None, false, [], [])

  /** Where a packet would go, or why nowhere; `dialler` is the one known already. */
  function Route(target: Address, dialler: Option<Address>, from: Address): Outcome
  {
    if from == target then (if dialler.Some? then Forwarded(dialler.value) else ReplyBeforeDial)
    else if dialler.Some? && from != dialler.value then Stranger
    else Forwarded(target)
  }

  function Settle(route: Outcome, e: Event): Outcome
    requires e.Receipt?
  {
    if !route.Forwarded? then route
    else if e.verdict == Drop then HookDropped
    else if !e.sends then SendFailed
    else route
  }

  function Hear(target: Address, h: HopState, e: Event): HopState
  {
    if !e.Receipt? then h.(outcomes := h.outcomes + [NotAPacket])
    else
      var outcome := Settle(Route(target, h.dialler, e.from), e);
      HopState(
        if h.dialler.None? && e.from != target then Some(e.from) else h.dialler,
        h.saidSendFailed || outcome == SendFailed,
        h.outcomes + [outcome],
        if outcome.Forwarded? then h.sent + [(e.packet, outcome.to)] else h.sent)
  }

  function HearAll(target: Address, events: seq<Event>): HopState
    decreases |events|
  {
    if events == [] then NEW_HOP else Hear(target, HearAll(target, events[..|events| - 1]), events[|events| - 1])
  }

  predicate Ends(e: Event)
  {
    e.ReceiveFailed? || e.Shutdown?
  }

  /** The events before the one that ends the hop. */
  function Live(events: seq<Event>): (live: seq<Event>)
    ensures live <= events
    ensures forall i | 0 <= i < |live| :: !Ends(live[i])
    ensures |live| < |events| ==> Ends(events[|live|])
  {
    if events == [] || Ends(events[0]) then [] else [events[0]] + Live(events[1..])
  }

  /** `run`: until shutdown or a fatal receive error.  `loud` counts the failures
      that were warned about rather than logged quietly. */
  method Run(target: Address, events: seq<Event>) returns (h: HopState, failed: bool, loud: nat)
    ensures h == HearAll(target, Live(events))
    ensures failed <==> |Live(events)| < |events| && events[|Live(events)|].ReceiveFailed?
    ensures loud == if h.saidSendFailed then 1 else 0
  {
    var dialler: Option<Address> := None;
    var saidSendFailed := false;
    var outcomes, sent := [], [];
    var i := 0;
    loud := 0;
    failed := false;
    assert events[..0] == [];
    while i < |events| && !Ends(events[i])
      invariant 0 <= i <= |events|
      invariant forall j | 0 <= j < i :: !Ends(events[j])
      invariant HopState(dialler, saidSendFailed, outcomes, sent) == HearAll(target, events[..i])
      invariant loud == if saidSendFailed then 1 else 0
    {
      assert events[..i + 1][..i] == events[..i];
      var e := events[i];
      i := i + 1;
      if e.ConnectionReset? {
        outcomes := outcomes + [NotAPacket];
        continue;
      }
      var verdict, to;
      if e.from == target {
        if dialler.None? {
          outcomes := outcomes + [ReplyBeforeDial];
          continue;
        }
        verdict, to := e.verdict, dialler.value;
      } else if dialler.Some? {
        if e.from != dialler.value {
          outcomes := outcomes + [Stranger];
          continue;
        }
        verdict, to := e.verdict, target;
      } else {
        dialler := Some(e.from);
        verdict, to := e.verdict, target;
      }
      if verdict == Drop {
        outcomes := outcomes + [HookDropped];
        continue;
      }
      if e.sends {
        outcomes := outcomes + [Forwarded(to)];
        sent := sent + [(e.packet, to)];
      } else {
        outcomes := outcomes + [SendFailed];
        if !saidSendFailed {
          saidSendFailed := true;
          loud := loud + 1;
        }
      }
    }
    LiveIsThePrefix(events, i);
    failed := i < |events| && events[i].ReceiveFailed?;
    h := HopState(dialler, saidSendFailed, outcomes, sent);
  }

  lemma {:induction false} LiveIsThePrefix(events: seq<Event>, i: nat)
    requires i <= |events| && (forall j | 0 <= j < i :: !Ends(events[j])) && (i < |events| ==> Ends(events[i]))
    ensures Live(events) == events[..i]
  {
    if i > 0 {
      LiveIsThePrefix(events[1..], i - 1);
      assert events[..i] == [events[0]] + events[1..][..i - 1];
    }
  }

  // ----- Who is connected to whom -----

  /** The first source that is not the target, read off the events from the front. */
  function FirstOther(target: Address, events: seq<Event>): Option<Address>
    decreases |events|
  {
    if events == [] then None
    else if events[0].Receipt? && events[0].from != target then Some(events[0].from)
    else FirstOther(target, events[1..])
  }

  lemma {:induction false} FirstOtherPush(target: Address, events: seq<Event>, e: Event)
    ensures FirstOther(target, events + [e]) ==
            if FirstOther(target, events).Some? then FirstOther(target, events)
            else if e.Receipt? && e.from != target then Some(e.from) else None
    decreases |events|
  {
    if events == [] {
      assert (events + [e])[1..] == [];
    } else {
      assert (events + [e])[1..] == events[1..] + [e];
      FirstOtherPush(target, events[1..], e);
    }
  }

  /** The dialler is the first source that is not the listener, is never the
      listener, and once known never changes. */
  lemma {:induction false} DiallerIsTheFirstOther(target: Address, events: seq<Event>)
    ensures HearAll(target, events).dialler == FirstOther(target, events)
    ensures FirstOther(target, events) != Some(target)
    decreases |events|
  {
    if events != [] {
      var front, last := events[..|events| - 1], events[|events| - 1];
      DiallerIsTheFirstOther(target, front);
      FirstOtherPush(target, front, last);
      assert front + [last] == events;
    }
  }

  lemma {:induction false} DiallerIsFixed(target: Address, events: seq<Event>, later: seq<Event>)
    requires FirstOther(target, events).Some?
    ensures FirstOther(target, events + later) == FirstOther(target, events)
    decreases |events|
  {
    assert (events + later)[0] == events[0];
    if !(events[0].Receipt? && events[0].from != target) {
      assert (events + later)[1..] == events[1..] + later;
      DiallerIsFixed(target, events[1..], later);
    }
  }

  /** Every receipt has one outcome, and it is decided by the first other source so
      far, the hook and the socket alone. */
  lemma {:induction false} EachReceiptOnce(target: Address, events: seq<Event>, i: nat)
    requires i < |events|
    ensures var outcomes := HearAll(target, events).outcomes;
            && |outcomes| == |events|
            && outcomes[i] ==
               var (e, dialler) := (events[i], FirstOther(target, events[..i]));
               if !e.Receipt? then NotAPacket
               else if e.from == target && dialler.None? then ReplyBeforeDial
               else if e.from != target && dialler.Some? && dialler.value != e.from then Stranger
               else if e.verdict == Drop then HookDropped
               else if !e.sends then SendFailed
               else Forwarded(if e.from == target then dialler.value else target)
    decreases |events|
  {
    var n := |events| - 1;
    var front := events[..n];
    LengthsAgree(target, front);
    if i < n {
      EachReceiptOnce(target, front, i);
      assert front[..i] == events[..i];
    } else {
      DiallerIsTheFirstOther(target, front);
    }
  }

  lemma {:induction false} LengthsAgree(target: Address, events: seq<Event>)
    ensures |HearAll(target, events).outcomes| == |events|
    decreases |events|
  {
    if events != [] {
      LengthsAgree(target, events[..|events| - 1]);
    }
  }

  /** The hop goes on until shutdown or a receive that fails; a reset of the connection
      does not end it. */
  lemma {:induction false} EndsOnlyWhenTold(events: seq<Event>)
    ensures Live(events) == events <==> forall e | e in events :: !e.Shutdown? && !e.ReceiveFailed?
    ensures forall e | e in Live(events) :: e.Receipt? || e.ConnectionReset?
    ensures |Live(events)| < |events| ==> events[|Live(events)|].Shutdown? || events[|Live(events)|].ReceiveFailed?
  {
    if events != [] {
      EndsOnlyWhenTold(events[1..]);
      assert forall e :: e in events <==> e == events[0] || e in events[1..];
    }
  }

  /** A send failure is said out loud exactly when there has been one. */
  lemma {:induction false} SaidWhenOneFailed(target: Address, events: seq<Event>)
    ensures HearAll(target, events).saidSendFailed <==> SendFailed in HearAll(target, events).outcomes
    decreases |events|
  {
    if events != [] {
      SaidWhenOneFailed(target, events[..|events| - 1]);
    }
  }

  // ----- What arrives where -----

  /** The packets of `sent` that went to `to`, in order. */
  function SentTo(sent: seq<(Packet, Address)>, to: Address): seq<Packet>
    decreases |sent|
  {
    if sent == [] then []
    else
      var last := sent[|sent| - 1];
      SentTo(sent[..|sent| - 1], to) + if last.1 == to then [last.0] else []
  }

  /** The packets that came from `from` and were neither dropped nor lost, in order. */
  function PassedFrom(events: seq<Event>, from: Address): seq<Packet>
    decreases |events|
  {
    if events == [] then []
    else
      var last := events[|events| - 1];
      PassedFrom(events[..|events| - 1], from)
      + if last.Receipt? && last.from == from && last.verdict == Pass && last.sends then [last.packet] else []
  }

  /** The listener's packets since somebody dialled. */
  function Replies(target: Address, events: seq<Event>): seq<Event>
    decreases |events|
  {
    if events == [] then []
    else if FirstOther(target, events[..|events| - 1]).None? then []
    else Replies(target, events[..|events| - 1]) + [events[|events| - 1]]
  }

  lemma SentToPush(sent: seq<(Packet, Address)>, p: (Packet, Address), to: Address)
    ensures SentTo(sent + [p], to) == SentTo(sent, to) + if p.1 == to then [p.0] else []
  {
    assert (sent + [p])[..|sent|] == sent;
  }

  lemma PassedFromPush(events: seq<Event>, e: Event, from: Address)
    ensures PassedFrom(events + [e], from) ==
            PassedFrom(events, from)
            + if e.Receipt? && e.from == from && e.verdict == Pass && e.sends then [e.packet] else []
  {
    assert (events + [e])[..|events|] == events;
  }

  ghost predicate Delivers(target: Address, events: seq<Event>)
  {
    var h := HearAll(target, events);
    var d := FirstOther(target, events);
    && (d.None? ==> h.sent == [])
    && (d.Some? ==>
          && (forall k | 0 <= k < |h.sent| :: h.sent[k].1 == target || h.sent[k].1 == d.value)
          && SentTo(h.sent, target) == PassedFrom(events, d.value)
          && SentTo(h.sent, d.value) == PassedFrom(Replies(target, events), target))
  }

  /** The listener gets exactly the dialler's packets that passed, and the dialler
      exactly the listener's since it dialled, in order and unchanged; nobody else
      gets anything. */
  lemma {:induction false} BothWaysInOrder(target: Address, events: seq<Event>)
    ensures Delivers(target, events)
    decreases |events|
  {
    if events != [] {
      var front, last := events[..|events| - 1], events[|events| - 1];
      BothWaysInOrder(target, front);
      DiallerIsTheFirstOther(target, front);
      FirstOtherPush(target, front, last);
      assert front + [last] == events;
      if FirstOther(target, front).None? {
        NothingBefore(target, front);
      }
      HearKeepsDelivery(target, front, last);
    }
  }

  lemma {:induction false} NothingBefore(target: Address, events: seq<Event>)
    requires FirstOther(target, events).None?
    ensures Replies(target, events) == []
    ensures forall from | from != target :: PassedFrom(events, from) == []
    decreases |events|
  {
    if events != [] {
      var front, last := events[..|events| - 1], events[|events| - 1];
      FirstOtherPush(target, front, last);
      assert front + [last] == events;
      NothingBefore(target, front);
    }
  }

  lemma HearKeepsDelivery(target: Address, front: seq<Event>, last: Event)
    requires Delivers(target, front)
    requires HearAll(target, front).dialler == FirstOther(target, front) != Some(target)
    requires FirstOther(target, front).None? ==>
               Replies(target, front) == [] && forall from | from != target :: PassedFrom(front, from) == []
    requires FirstOther(target, front + [last]) ==
             if FirstOther(target, front).Some? then FirstOther(target, front)
             else if last.Receipt? && last.from != target then Some(last.from) else None
    ensures Delivers(target, front + [last])
  {
    hide FirstOther, SentTo, PassedFrom, HearAll, Replies;
    var h := HearAll(target, front);
    var events := front + [last];
    OneMoreHeard(target, front, last);
    var d := FirstOther(target, events);
    if d.Some? {
      PassedFromPush(front, last, d.value);
      PassedFromPush(Replies(target, front), last, target);
      NobodySentTo(target, d.value);
      if last.Receipt? {
        if last.from == target {
          PushBack(h.sent, last.packet, target, d.value);
        } else if last.from == d.value {
          PushOut(h.sent, last.packet, target, d.value);
        }
      }
    }
  }

  lemma OneMoreHeard(target: Address, front: seq<Event>, last: Event)
    ensures HearAll(target, front + [last]) == Hear(target, HearAll(target, front), last)
    ensures Replies(target, front + [last]) ==
            if FirstOther(target, front).None? then [] else Replies(target, front) + [last]
  {
    assert (front + [last])[..|front|] == front;
  }

  lemma PushOut(sent: seq<(Packet, Address)>, packet: Packet, target: Address, dialler: Address)
    requires target != dialler
    ensures SentTo(sent + [(packet, target)], target) == SentTo(sent, target) + [packet]
    ensures SentTo(sent + [(packet, target)], dialler) == SentTo(sent, dialler)
  {
    SentToPush(sent, (packet, target), target);
    SentToPush(sent, (packet, target), dialler);
  }

  lemma PushBack(sent: seq<(Packet, Address)>, packet: Packet, target: Address, dialler: Address)
    requires target != dialler
    ensures SentTo(sent + [(packet, dialler)], dialler) == SentTo(sent, dialler) + [packet]
    ensures SentTo(sent + [(packet, dialler)], target) == SentTo(sent, target)
  {
    SentToPush(sent, (packet, dialler), target);
    SentToPush(sent, (packet, dialler), dialler);
  }

  lemma NobodySentTo(a: Address, b: Address)
    ensures SentTo([], a) == [] == SentTo([], b) && PassedFrom([], a) == []
  {}

  // ----- EatTheAnswer -----

  const BIG: nat := 1000

  datatype Hook = Hook(challenged: bool, budget: nat, ate: nat)

  function HookOutbound(hook: Hook, packet: Packet): Hook
  {
    if |packet| >= BIG then hook.(challenged := true) else hook
  }

  function HookInbound(hook: Hook): (Hook, Verdict)
  {
    if !hook.challenged || hook.budget == 0 then (hook, Pass)
    else (hook.(budget := hook.budget - 1, ate := hook.ate + 1), Drop)
  }

  class EatTheAnswer {
    var challenged: bool
    var budget: nat
    var ate: nat

    function State(): Hook
      reads this
    {
      Hook(challenged, budget, ate)
    }

    constructor (replies: nat)
      ensures State() == Hook(false, replies, 0)
    {
      challenged, budget, ate := false, replies, 0;
    }

    method Outbound(packet: Packet) returns (v: Verdict)
      modifies this
      ensures v == Pass && State() == HookOutbound(old(State()), packet)
    {
      if |packet| >= BIG {
        challenged := true;
      }
      v := Pass;
    }

    method Inbound(packet: Packet) returns (v: Verdict)
      modifies this
      ensures (State(), v) == HookInbound(old(State()))
    {
      if !challenged {
        return Pass;
      }
      if budget > 0 {
        budget := budget - 1;
        ate := ate + 1;
        return Drop;
      }
      v := Pass;
    }
  }

  /** Whether the hop offers this receipt to the hook, and which way. */
  predicate OfferedOut(target: Address, before: seq<Event>, e: Event)
  {
    e.Receipt? && e.from != target && (FirstOther(target, before).None? || FirstOther(target, before) == Some(e.from))
  }

  predicate OfferedIn(target: Address, before: seq<Event>, e: Event)
  {
    e.Receipt? && e.from == target && FirstOther(target, before).Some?
  }

  /** The hook after a run in which it was consulted, from a budget of `k`. */
  function HookAfter(target: Address, k: nat, events: seq<Event>): Hook
    decreases |events|
  {
    if events == [] then Hook(false, k, 0)
    else
      var front, last := events[..|events| - 1], events[|events| - 1];
      var hook := HookAfter(target, k, front);
      if OfferedOut(target, front, last) then HookOutbound(hook, last.packet)
      else if OfferedIn(target, front, last) then HookInbound(hook).0
      else hook
  }

  /** Every verdict in the run is the one this hook gives at that point. */
  ghost predicate Consulted(target: Address, k: nat, events: seq<Event>)
  {
    forall i | 0 <= i < |events| ::
      && (OfferedOut(target, events[..i], events[i]) ==> events[i].verdict == Pass)
      && (OfferedIn(target, events[..i], events[i]) ==>
            events[i].verdict == HookInbound(HookAfter(target, k, events[..i])).1)
  }

  /** A packet of 1000 bytes or more has gone out from the dialler. */
  function Challenged(target: Address, events: seq<Event>): bool
    decreases |events|
  {
    if events == [] then false
    else
      var front, last := events[..|events| - 1], events[|events| - 1];
      Challenged(target, front) || (OfferedOut(target, front, last) && |last.packet| >= 1000)
  }

  /** How many packets the listener has offered since then. */
  function AnswersOffered(target: Address, events: seq<Event>): nat
    decreases |events|
  {
    if events == [] then 0
    else
      var front, last := events[..|events| - 1], events[|events| - 1];
      AnswersOffered(target, front) + if Challenged(target, front) && OfferedIn(target, front, last) then 1 else 0
  }

  function Min(a: nat, b: nat): nat
  {
    if a < b then a else b
  }

  lemma {:induction false} HookCountsAnswers(target: Address, k: nat, events: seq<Event>)
    ensures HookAfter(target, k, events) ==
            Hook(Challenged(target, events), k - Min(k, AnswersOffered(target, events)),
                 Min(k, AnswersOffered(target, events)))
    decreases |events|
  {
    hide FirstOther;
    if events != [] {
      HookCountsAnswers(target, k, events[..|events| - 1]);
    }
  }

  function Dropped(outcomes: seq<Outcome>): nat
    decreases |outcomes|
  {
    if outcomes == [] then 0
    else Dropped(outcomes[..|outcomes| - 1]) + if outcomes[|outcomes| - 1] == HookDropped then 1 else 0
  }

  /** With this hook the hop loses a packet exactly when it is one of the first `k`
      the listener sends after the dialler's first big one, ... */
  lemma EatsExactlyTheFirstAnswers(target: Address, k: nat, events: seq<Event>, i: nat)
    requires Consulted(target, k, events) && i < |events|
    ensures |HearAll(target, events).outcomes| == |events|
    ensures HearAll(target, events).outcomes[i] == HookDropped <==>
            && OfferedIn(target, events[..i], events[i])
            && Challenged(target, events[..i])
            && AnswersOffered(target, events[..i]) < k
  {
    hide FirstOther, HearAll, HookAfter, Challenged, AnswersOffered;
    EachReceiptOnce(target, events, i);
    HookCountsAnswers(target, k, events[..i]);
  }

  /** ... so that `min(k, n)` of the `n` it sends are lost, and the hook says so. */
  lemma {:induction false} EatsAsManyAsItMay(target: Address, k: nat, events: seq<Event>)
    requires Consulted(target, k, events)
    ensures Dropped(HearAll(target, events).outcomes) == Min(k, AnswersOffered(target, events))
    ensures HookAfter(target, k, events).ate == Min(k, AnswersOffered(target, events))
    decreases |events|
  {
    HookCountsAnswers(target, k, events);
    if events != [] {
      var n := |events| - 1;
      var front := events[..n];
      assert forall i | 0 <= i < n :: front[..i] == events[..i];
      EatsAsManyAsItMay(target, k, front);
      EatsExactlyTheFirstAnswers(target, k, events, n);
      LengthsAgree(target, front);
      assert HearAll(target, events).outcomes[..n] == HearAll(target, front).outcomes;
    }
  }
}
