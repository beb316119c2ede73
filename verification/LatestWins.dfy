/**
 The camera's fan-out: one slot that publishing replaces, and any number of
 clients that each send the newest frame they have not picked up.

 The slot is a tokio watch channel: it holds the newest value, and a receiver
 knows only how many values had been published when it last looked.
 */
module LatestWins {
  import opened Wrappers

  type Frame = nat

  /** `sent` and `sending` name frames by their place among the published values. */
  datatype Client = Client(joined: nat, seen: nat, sending: Option<nat>, sent: seq<nat>, over: bool)
  datatype Server = Server(published: seq<Option<Frame>>, open: bool, clients: seq<Client>)

  datatype Event =
    | Accepted
    | FrameFromCamera(frame: Frame)
    | Stopped
    | ClientWakes(client: nat)
    | ClientSent(client: nat, ok: bool)

  const NEW_SERVER := Server([], true, [])

  /** `changed` then `borrow_and_update`: nothing unseen means wait, or the end if
      the publisher has gone; otherwise look at the newest value and nothing older.
      An empty value is skipped. */
  function Wake(s: Server, c: Client): Client
  {
    if c.over || c.sending.Some? then c
    else if c.seen == |s.published| then c.(over := !s.open)
    else if c.seen > |s.published| then c
    else
      var newest := |s.published| - 1;
      c.(seen := |s.published|, sending := if s.published[newest].Some? then Some(newest) else None)
  }

  function FinishSend(c: Client, ok: bool): Client
  {
    if c.over || c.sending.None? then c
    else c.(sending := None, sent := c.sent + [c.sending.value], over := !ok)
  }

  function Step(s: Server, e: Event): Server
  {
    match e
    case Accepted =>
      if s.open then s.(clients := s.clients + [Client(|s.published|, |s.published|, None, [], false)]) else s
    case FrameFromCamera(frame) =>
      if s.open then s.(published := s.published + [Some(frame)]) else s
    case Stopped => s.(open := false)
    case ClientWakes(i) =>
      if i < |s.clients| then s.(clients := s.clients[i := Wake(s, s.clients[i])]) else s
    case ClientSent(i, ok) =>
      if i < |s.clients| then s.(clients := s.clients[i := FinishSend(s.clients[i], ok)]) else s
  }

  function Run(events: seq<Event>): Server
  {
    if events == [] then NEW_SERVER else Step(Run(events[..|events| - 1]), events[|events| - 1])
  }

  /** What this client has picked up last, or one before its first possible frame. */
  function LastPicked(c: Client): int
  {
    if c.sending.Some? then c.sending.value
    else if c.sent != [] then c.sent[|c.sent| - 1]
    else c.joined - 1
  }

  ghost predicate ClientInv(published: seq<Option<Frame>>, c: Client)
  {
    && c.joined <= c.seen <= |published|
    && (forall k | 0 <= k < |c.sent| :: c.joined <= c.sent[k] < c.seen && published[c.sent[k]].Some?)
    && (forall j, k | 0 <= j < k < |c.sent| :: c.sent[j] < c.sent[k])
    && (c.sending.Some? ==>
          && c.joined <= c.sending.value < c.seen && published[c.sending.value].Some?
          && (forall k | 0 <= k < |c.sent| :: c.sent[k] < c.sending.value))
    && c.seen == LastPicked(c) + 1
  }

  ghost predicate Inv(s: Server)
  {
    && (forall v | v in s.published :: v.Some?)
    && (forall i | 0 <= i < |s.clients| :: ClientInv(s.published, s.clients[i]))
  }

  lemma PublishKeepsClient(published: seq<Option<Frame>>, v: Option<Frame>, c: Client)
    requires ClientInv(published, c)
    ensures ClientInv(published + [v], c)
  {}

  lemma WakeKeepsClient(s: Server, c: Client)
    requires ClientInv(s.published, c) && forall v | v in s.published :: v.Some?
    ensures ClientInv(s.published, Wake(s, c))
  {}

  lemma SendKeepsClient(published: seq<Option<Frame>>, c: Client, ok: bool)
    requires ClientInv(published, c)
    ensures ClientInv(published, FinishSend(c, ok))
  {}

  lemma StepKeepsInv(s: Server, e: Event)
    requires Inv(s)
    ensures Inv(Step(s, e))
  {
    match e
    case FrameFromCamera(frame) =>
      forall i | 0 <= i < |s.clients|
        ensures ClientInv(s.published + [Some(frame)], s.clients[i])
      {
        PublishKeepsClient(s.published, Some(frame), s.clients[i]);
      }
    case ClientWakes(i) =>
      if i < |s.clients| {
        WakeKeepsClient(s, s.clients[i]);
        hide ClientInv, Wake;
      }
    case ClientSent(i, ok) =>
      if i < |s.clients| {
        SendKeepsClient(s.published, s.clients[i], ok);
        hide ClientInv, FinishSend;
      }
    case Accepted =>
      assert ClientInv(s.published, Client(|s.published|, |s.published|, None, [], false));
    case Stopped =>
  }

  /** Over every interleaving each client sends a strictly increasing selection of
      what was published since it joined. */
  lemma {:induction false} ClientsSendSelections(events: seq<Event>)
    ensures Inv(Run(events))
  {
    hide Step, Inv;
    if events == [] {
      NewServerIsFine();
    } else {
      ClientsSendSelections(events[..|events| - 1]);
      StepKeepsInv(Run(events[..|events| - 1]), events[|events| - 1]);
    }
  }

  lemma NewServerIsFine()
    ensures Inv(NEW_SERVER)
  {}

  /** Latest wins: whatever a waking client picks is the newest frame there is,
      however many it skips; and a client with nothing unseen has picked up, last,
      the newest frame published since it joined, even when the server has stopped. */
  lemma LatestWinsAlways(events: seq<Event>, i: nat)
    requires i < |Run(events).clients|
    ensures var s := Run(events);
            var c := s.clients[i];
            && (Wake(s, c).sending != c.sending ==> Wake(s, c).sending == Some(|s.published| - 1))
            && (!c.over && c.sending.None? && c.seen < |s.published| ==> Wake(s, c).sending.Some?)
            && (c.seen == |s.published| && c.joined < |s.published| ==> LastPicked(c) == |s.published| - 1)
            && (Wake(s, c).over && !c.over ==>
                  !s.open && (c.joined < |s.published| ==> c.sent[|c.sent| - 1] == |s.published| - 1))
  {
    ClientsSendSelections(events);
    var s := Run(events);
    assert ClientInv(s.published, s.clients[i]);
  }

  /** What ended client `i`: a push of its that was in flight failed, or it woke to
      nothing unseen after the publisher had gone. */
  ghost predicate EndsClient(s: Server, e: Event, i: nat)
  {
    i < |s.clients| && !s.clients[i].over &&
    var c := s.clients[i];
    || (e == ClientSent(i, false) && c.sending.Some?)
    || (e == ClientWakes(i) && c.sending.None? && c.seen == |s.published| && !s.open)
  }

  ghost predicate EndedAt(events: seq<Event>, i: nat, k: nat)
    requires k < |events|
  {
    EndsClient(Run(events[..k]), events[k], i)
  }

  /** A client is over exactly when one of these has happened: a push that succeeds
      never ends it, and neither does a wake while the publisher is there. */
  lemma {:induction false} OverExactlyWhenEnded(events: seq<Event>, i: nat)
    requires i < |Run(events).clients|
    ensures Run(events).clients[i].over <==> exists k | 0 <= k < |events| :: EndedAt(events, i, k)
  {
    var n := |events| - 1;
    var front := events[..n];
    var s := Run(front);
    assert forall k | 0 <= k < n :: front[..k] == events[..k] && front[k] == events[k];
    assert forall k | 0 <= k < n :: EndedAt(events, i, k) <==> EndedAt(front, i, k);
    assert EndedAt(events, i, n) <==> EndsClient(s, events[n], i);
    hide Step, EndsClient;
    StepEndsClient(s, events[n], i);
    if i < |s.clients| {
      OverExactlyWhenEnded(front, i);
    } else {
      NeverEndedBefore(front, i);
    }
  }

  lemma StepEndsClient(s: Server, e: Event, i: nat)
    requires i < |Step(s, e).clients|
    ensures Step(s, e).clients[i].over <==> (i < |s.clients| && s.clients[i].over) || EndsClient(s, e, i)
  {}

  lemma {:induction false} NeverEndedBefore(events: seq<Event>, i: nat)
    requires i >= |Run(events).clients|
    ensures forall k | 0 <= k < |events| :: !EndedAt(events, i, k)
  {
    forall k | 0 <= k < |events|
      ensures i >= |Run(events[..k]).clients|
    {
      ClientsOnlyJoin(events, k);
    }
  }

  lemma {:induction false} ClientsOnlyJoin(events: seq<Event>, k: nat)
    requires k <= |events|
    ensures |Run(events[..k]).clients| <= |Run(events).clients|
    decreases |events|
  {
    if k == |events| {
      assert events[..k] == events;
    } else {
      assert events[..|events| - 1][..k] == events[..k];
      ClientsOnlyJoin(events[..|events| - 1], k);
    }
  }

  /** What each event does: who joins, what is published, that serving ends, and nothing
      besides; publishing and joining stop when it has ended. */
  lemma WhatEachEventDoes(events: seq<Event>, frame: Frame)
    ensures var s := Run(events);
            && Step(s, FrameFromCamera(frame)) == (if s.open then s.(published := s.published + [Some(frame)]) else s)
            && Step(s, Accepted) ==
               (if s.open then s.(clients := s.clients + [Client(|s.published|, |s.published|, None, [], false)]) else s)
            && Step(s, Stopped) == s.(open := false)
    ensures Run([]) == Server([], true, [])
  {}

  /** So while the server is open and its pushes succeed, a client goes on: with
      nothing in flight, its next wake with a frame unseen picks the newest. */
  lemma ClientGoesOn(events: seq<Event>, i: nat)
    requires i < |Run(events).clients|
    requires forall k | 0 <= k < |events| :: events[k] != ClientSent(i, false) && events[k] != Stopped
    ensures var s := Run(events);
            var c := s.clients[i];
            && s.open && !c.over
            && (c.sending.None? && c.seen < |s.published| ==>
                  Step(s, ClientWakes(i)).clients[i] == c.(seen := |s.published|, sending := Some(|s.published| - 1)))
            && (c.sending.Some? ==>
                  Step(s, ClientSent(i, true)).clients[i] == c.(sending := None, sent := c.sent + [c.sending.value]))
  {
    ClientsSendSelections(events);
    OverExactlyWhenEnded(events, i);
    StaysOpen(events);
    forall k | 0 <= k < |events|
      ensures !EndedAt(events, i, k)
    {
      StaysOpen(events[..k]);
    }
    var s := Run(events);
    if s.clients[i].seen < |s.published| {
      assert s.published[|s.published| - 1] in s.published;
    }
  }

  lemma {:induction false} StaysOpen(events: seq<Event>)
    requires forall k | 0 <= k < |events| :: events[k] != Stopped
    ensures Run(events).open
  {
    if events != [] {
      StaysOpen(events[..|events| - 1]);
    }
  }

  /** What the slot is each time `changed` resolves, until a wake finds a frame or the
      end; a client that is sending or over is not waiting, so later ones are not its. */
  function WakeAll(c: Client, wakes: seq<Server>): Client
    decreases |wakes|
  {
    if wakes == [] then c else Wake(wakes[|wakes| - 1], WakeAll(c, wakes[..|wakes| - 1]))
  }

  lemma {:induction false} BusyStaysBusy(c: Client, wakes: seq<Server>, k: nat)
    requires k <= |wakes|
    requires var now := WakeAll(c, wakes[..k]); now.over || now.sending.Some?
    ensures WakeAll(c, wakes) == WakeAll(c, wakes[..k])
    decreases |wakes|
  {
    if k == |wakes| {
      assert wakes[..k] == wakes;
    } else {
      assert wakes[..|wakes| - 1][..k] == wakes[..k];
      BusyStaysBusy(c, wakes[..|wakes| - 1], k);
    }
  }

  /** One client's task: `push_frames` and the receiver it loops on. */
  class PushFrames {
    const joined: nat
    var seen: nat
    var sending: Option<nat>
    var sent: seq<nat>
    var over: bool

    function State(): Client
      reads this
    {
      Client(joined, seen, sending, sent, over)
    }

    /** `subscribe` and `spawn`. */
    constructor (s: Server)
      requires s.open
      ensures Step(s, Accepted) == s.(clients := s.clients + [State()])
    {
      joined, seen, sending, sent, over := |s.published|, |s.published|, None, [], false;
    }

    /** The loop of `next_frame`: the first frame found is the newest there is then;
        none is found only when the publisher has gone, or nothing woke it. */
    method NextFrame(wakes: seq<Server>) returns (frame: Option<Frame>)
      requires !over && sending.None?
      modifies this
      ensures State() == WakeAll(old(State()), wakes)
      ensures frame.Some? ==>
                sending.Some? && exists k | 0 <= k < |wakes| ::
                  && sending.value == |wakes[k].published| - 1 && wakes[k].published[sending.value] == frame
                  && WakeAll(old(State()), wakes[..k]).sending.None?
      ensures frame.None? ==> sending.None?
    {
      assert wakes[..0] == [];
      for k := 0 to |wakes|
        invariant !over && sending.None?
        invariant State() == WakeAll(old(State()), wakes[..k])
      {
        assert wakes[..k + 1][..k] == wakes[..k];
        if seen == |wakes[k].published| {
          if !wakes[k].open {
            over := true;
            BusyStaysBusy(old(State()), wakes, k + 1);
            return None;
          }
        } else if seen < |wakes[k].published| {
          seen := |wakes[k].published|;
          var slot := wakes[k].published[seen - 1];
          if slot.Some? {
            sending := Some(seen - 1);
            BusyStaysBusy(old(State()), wakes, k + 1);
            return slot;
          }
        }
      }
      assert wakes[..|wakes|] == wakes;
      frame := None;
    }

    /** `push_one` has returned; an error ends the client's loop. */
    method Pushed(ok: bool)
      requires !over && sending.Some?
      modifies this
      ensures State() == FinishSend(old(State()), ok)
    {
      sent := sent + [sending.value];
      sending := None;
      over := !ok;
    }
  }
}
