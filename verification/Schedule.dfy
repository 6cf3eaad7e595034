/** When a session sends: `outgoing` against the time `next_send_ms` names. */
module Schedules {
  import opened Wrappers
  import opened Protocol
  import opened Packets
  import opened Channels
  import Histories
  import opened Sessions

  /**
   * With a working sequence source and no new events, a call of `outgoing` at `later` emits
   * exactly when the floor has passed and an acknowledgement is owed or the time that
   * `next_send_ms` named at `nowMs` has come; at that time itself it always emits.
   */
  lemma EmitsWhenDue(s: SessionState, mh: Histories.History, sh: Histories.History, nowMs: nat, later: nat, draws: seq<Option<nat>>)
    requires SessionOk(s, mh, sh) && later >= nowMs && |draws| >= 2 && forall x | x in draws :: x.Some?
    ensures s.Outgoing(later, draws).1.Ok? && s.Outgoing(s.NextSendMs(nowMs), draws).1.Ok?
    ensures s.Outgoing(later, draws).1.value != []
       <==> s.FloorElapsed(later) && (s.AckPending() || later >= s.NextSendMs(nowMs))
    ensures s.Outgoing(s.NextSendMs(nowMs), draws).1.value != []
  {
    ScheduleAgrees(s, nowMs, later);
    SendsWhenNamed(s, nowMs);
    OutgoingNeverFails(s, mh, sh, later, draws);
    OutgoingNeverFails(s, mh, sh, s.NextSendMs(nowMs), draws);
    hide SessionState.Outgoing, SessionState.Wanted, SessionState.NextSendMs, Histories.Sends;
  }

  // ---------- the floor, over whole runs ----------

  ghost predicate Emits(s: SessionState, e: Event)
    requires s.Typed()
  {
    e.Tick? && var out := s.Outgoing(e.nowMs, e.draws).1; out.Ok? && out.value != []
  }

  /** The times of the calls that emitted. */
  ghost function EmitTimes(s: SessionState, events: seq<Event>): seq<nat>
    requires s.Typed()
    decreases events
  {
    if events == [] then []
    else
      HappenKeepsTyped(s, events[0]);
      (if Emits(s, events[0]) then [events[0].nowMs] else []) + EmitTimes(Happen(s, events[0]), events[1..])
  }

  /** No earlier than the floor after `last`. */
  predicate AfterFloor(last: Option<nat>, t: nat) { last.Some? ==> t >= last.value + SEND_INTERVAL_MIN }

  /** A session's stamp only moves forward. */
  predicate NotBefore(last: Option<nat>, next: Option<nat>) {
    last.Some? ==> next.Some? && next.value >= last.value
  }

  lemma BuildStamps(s: SessionState, id: nat, nowMs: nat, drawn: Option<nat>, heartbeat: bool)
    requires s.Typed()
    ensures var (s', r) := s.Build(id, nowMs, drawn, heartbeat);
            s'.rotate == s.rotate && s'.lastSendMs == if r.Ok? then Some(nowMs) else s.lastSendMs
  {
    hide ChannelState.NextInstruction, SessionState.Typed, SessionState.ReplyTs, SessionState.ChannelOf;
  }

  lemma {:induction false} BuildAllStamps(s: SessionState, wanted: seq<(nat, bool)>, nowMs: nat, draws: seq<Option<nat>>)
    requires s.Typed()
    ensures var (s', out) := s.BuildAll(wanted, nowMs, draws);
            && s'.rotate == s.rotate
            && (s'.lastSendMs == s.lastSendMs || s'.lastSendMs == Some(nowMs))
            && (out.Ok? ==> |out.value| == |wanted|)
            && (out.Ok? && wanted != [] ==> s'.lastSendMs == Some(nowMs))
    decreases wanted
  {
    hide SessionState.Build, SessionState.BuildAll, SessionState.Typed;
    if wanted == [] {
      BuildNothing(s, nowMs, draws);
    } else {
      BuildAllUnfolds(s, wanted, nowMs, draws);
      BuildStamps(s, wanted[0].0, nowMs, HeadDraw(draws), wanted[0].1);
      BuildAllStamps(s.Build(wanted[0].0, nowMs, HeadDraw(draws), wanted[0].1).0, wanted[1..], nowMs, TailDraws(draws));
    }
  }

  lemma OutgoingStamps(s: SessionState, nowMs: nat, draws: seq<Option<nat>>)
    requires s.Typed()
    ensures var (s', out) := s.Outgoing(nowMs, draws);
            && NotBefore(s.lastSendMs, s'.lastSendMs)
            && (out.Ok? && out.value != [] ==> AfterFloor(s.lastSendMs, nowMs) && s'.lastSendMs == Some(nowMs))
  {
    BuildAllStamps(s, s.Wanted(nowMs), nowMs, draws);
    BuildAllStamps(s.Turned(), s.Wanted(nowMs), nowMs, draws);
    hide SessionState.BuildAll, SessionState.Wanted, ChannelState.Typed;
  }

  lemma HearKeepsStamp(s: SessionState, d: Datagram, nowMs: nat, sampledRto: nat)
    requires s.Typed()
    ensures s.Handle(d, nowMs, sampledRto).0.lastSendMs == s.lastSendMs
  {
    hide ChannelState.Apply, ChannelState.ResetPeer, SessionState.Authentic, ChannelState.Typed;
  }

  lemma HappenStamps(s: SessionState, e: Event)
    requires s.Typed()
    ensures NotBefore(s.lastSendMs, Happen(s, e).lastSendMs)
    ensures Emits(s, e) ==> AfterFloor(s.lastSendMs, e.nowMs) && Happen(s, e).lastSendMs == Some(e.nowMs)
  {
    if e.Tick? {
      OutgoingStamps(s, e.nowMs, e.draws);
    } else if e.Hear? {
      HearKeepsStamp(s, e.d, e.heardMs, e.sampledRto);
    }
    hide SessionState.Outgoing, SessionState.Handle, SessionState.Typed, Histories.Offer;
  }

  predicate Apart(times: seq<nat>) {
    forall i, j | 0 <= i < j < |times| :: times[j] >= times[i] + SEND_INTERVAL_MIN
  }

  lemma ApartFromFirst(t: nat, rest: seq<nat>)
    requires Apart(rest) && forall x | x in rest :: AfterFloor(Some(t), x)
    ensures Apart([t] + rest)
  {
    var times := [t] + rest;
    forall i, j | 0 <= i < j < |times|
      ensures times[j] >= times[i] + SEND_INTERVAL_MIN
    {
      assert times[j] == rest[j - 1] && times[j] in rest;
      if i > 0 {
        assert times[i] == rest[i - 1];
      }
    }
  }

  ghost predicate AllAfter(last: Option<nat>, times: seq<nat>) {
    forall t | t in times :: AfterFloor(last, t)
  }

  lemma OneMoreEmission(last: Option<nat>, next: Option<nat>, emitted: bool, t: nat, rest: seq<nat>)
    requires NotBefore(last, next) && (emitted ==> AfterFloor(last, t) && next == Some(t))
    requires AllAfter(next, rest) && Apart(rest)
    ensures var times := (if emitted then [t] else []) + rest; AllAfter(last, times) && Apart(times)
  {
    if emitted {
      ApartFromFirst(t, rest);
    } else {
      assert [] + rest == rest;
    }
  }

  /** Whatever happens in between, whatever a peer sends, two calls that emit are the floor apart. */
  lemma {:induction false} EmissionsApart(s: SessionState, events: seq<Event>)
    requires s.Typed()
    ensures AllAfter(s.lastSendMs, EmitTimes(s, events)) && Apart(EmitTimes(s, events))
    decreases events
  {
    if events != [] {
      HappenStamps(s, events[0]);
      HappenKeepsTyped(s, events[0]);
      EmissionsApart(Happen(s, events[0]), events[1..]);
      hide Happen, Emits, SessionState.Typed, Apart, AllAfter, AfterFloor, NotBefore;
      OneMoreEmission(s.lastSendMs, Happen(s, events[0]).lastSendMs, Emits(s, events[0]),
        if events[0].Tick? then events[0].nowMs else 0, EmitTimes(Happen(s, events[0]), events[1..]));
    }
  }

  // ---------- no channel waits for the other ----------

  ghost predicate Marked(s: SessionState, id: nat, nowMs: nat) { s.ChannelOf(id).lastSentMs == Some(nowMs) }

  lemma BuildMarks(s: SessionState, id: nat, nowMs: nat, drawn: Option<nat>, heartbeat: bool, other: nat)
    requires s.Typed() && s.Build(id, nowMs, drawn, heartbeat).1.Ok?
    ensures Marked(s.Build(id, nowMs, drawn, heartbeat).0, id, nowMs)
    ensures Marked(s, other, nowMs) ==> Marked(s.Build(id, nowMs, drawn, heartbeat).0, other, nowMs)
  {
    hide ChannelState.NextInstruction, EncodePacket, SessionState.Typed, SessionState.ReplyTs;
  }

  lemma {:induction false} BuildAllMarks(s: SessionState, wanted: seq<(nat, bool)>, nowMs: nat, draws: seq<Option<nat>>,
                                         id: nat)
    requires s.Typed() && s.BuildAll(wanted, nowMs, draws).1.Ok?
    requires Marked(s, id, nowMs) || exists k | 0 <= k < |wanted| :: wanted[k].0 == id
    ensures Marked(s.BuildAll(wanted, nowMs, draws).0, id, nowMs)
    decreases wanted
  {
    hide SessionState.Build, SessionState.BuildAll, SessionState.Typed, Marked;
    if wanted == [] {
      BuildNothing(s, nowMs, draws);
    } else {
      BuildAllUnfolds(s, wanted, nowMs, draws);
      BuildMarks(s, wanted[0].0, nowMs, HeadDraw(draws), wanted[0].1, id);
      var s1 := s.Build(wanted[0].0, nowMs, HeadDraw(draws), wanted[0].1).0;
      if !Marked(s1, id, nowMs) {
        var k :| 0 <= k < |wanted| && wanted[k].0 == id;
        assert wanted[1..][k - 1].0 == id;
      }
      BuildAllMarks(s1, wanted[1..], nowMs, TailDraws(draws), id);
    }
  }

  /** Whether channel `id` is due. */
  ghost predicate IsDue(s: SessionState, id: nat, nowMs: nat) {
    if id == CHANNEL_SCREEN then DueBy(s.ScreenDueAt(), nowMs) else DueBy(s.MessagesDueAt(), nowMs)
  }

  lemma DueIsWanted(s: SessionState, id: nat, nowMs: nat)
    requires (id == CHANNEL_MESSAGES || id == CHANNEL_SCREEN) && s.FloorElapsed(nowMs) && IsDue(s, id, nowMs)
    ensures id in s.DueChannels(nowMs) && exists k | 0 <= k < |s.Wanted(nowMs)| :: s.Wanted(nowMs)[k].0 == id
  {
    hide SessionState.ScreenDueAt, SessionState.MessagesDueAt;
    var k :| 0 <= k < |s.DueChannels(nowMs)| && s.DueChannels(nowMs)[k] == id;
    assert s.Wanted(nowMs)[k].0 == id;
  }

  /**
   * A call that succeeds after the floor sends on every channel that was due, on both if both
   * were, and leaves the other channel first in line.
   */
  lemma EveryDueChannelSends(s: SessionState, id: nat, nowMs: nat, draws: seq<Option<nat>>)
    requires s.Typed() && (id == CHANNEL_MESSAGES || id == CHANNEL_SCREEN)
    requires s.FloorElapsed(nowMs) && IsDue(s, id, nowMs) && s.Outgoing(nowMs, draws).1.Ok?
    ensures Marked(s.Outgoing(nowMs, draws).0, id, nowMs)
    ensures s.Outgoing(nowMs, draws).0.rotate != s.rotate
  {
    DueIsWanted(s, id, nowMs);
    hide SessionState.BuildAll, SessionState.Wanted, SessionState.DueChannels, SessionState.Typed, IsDue;
    BuildAllMarks(s, s.Wanted(nowMs), nowMs, draws, id);
    BuildAllStamps(s, s.Wanted(nowMs), nowMs, draws);
  }

  // ---------- the echoed clock ----------

  /**
   * A clock sent at `sentMs`, held from `at` until it is echoed at `nowMs`, and back at `backMs`
   * by its sender's clock: its sender measures the time on the network alone, unless the echo
   * would have been the reserved 0. Nudged to 1 it measures one millisecond less, and when the
   * network took no whole millisecond the difference wraps to the largest sample there is.
   */
  lemma EchoMeasuresNetwork(s: SessionState, sentMs: nat, at: nat, nowMs: nat, backMs: nat)
    requires s.peerTimestamp == Some((Timestamp16(sentMs), at))
    requires at <= nowMs < at + TIMESTAMP_MAX_AGE
    requires 0 <= backMs - sentMs - (nowMs - at) < U16_SPAN
    ensures s.ReplyTs(nowMs) != 0
    ensures var network, nudged := backMs - sentMs - (nowMs - at), (sentMs + (nowMs - at)) % U16_SPAN == 0;
            var sample := Elapsed16(backMs, s.ReplyTs(nowMs));
            && (sample == network <==> !nudged)
            && (nudged && network > 0 ==> sample == network - 1)
            && (nudged && network == 0 ==> sample == U16_SPAN - 1)
  {
    EchoIs(s, sentMs, at, nowMs);
    WrappedDifference(sentMs + (nowMs - at), backMs - sentMs - (nowMs - at));
    hide SessionState.ReplyTs, Elapsed16;
  }

  /** The wrapped sample happens: a clock of 0 echoed at once, over a network that took no time. */
  lemma EchoCanWrap(s: SessionState, at: nat)
    requires s.peerTimestamp == Some((Timestamp16(U16_SPAN), at))
    ensures Elapsed16(U16_SPAN, s.ReplyTs(at)) == 65_535
  {
    EchoMeasuresNetwork(s, U16_SPAN, at, at, U16_SPAN);
  }

  lemma EchoIs(s: SessionState, sentMs: nat, at: nat, nowMs: nat)
    requires s.peerTimestamp == Some((Timestamp16(sentMs), at)) && at <= nowMs < at + TIMESTAMP_MAX_AGE
    ensures var out := (sentMs + (nowMs - at)) % U16_SPAN; s.ReplyTs(nowMs) == if out == 0 then 1 else out
  {
    assert (Timestamp16(sentMs) + (nowMs - at) % U16_SPAN) % U16_SPAN == (sentMs + (nowMs - at)) % U16_SPAN;
  }

  lemma WrappedDifference(out: nat, network: nat)
    requires network < U16_SPAN
    ensures Elapsed16(out + network, out % U16_SPAN) == network
    ensures out % U16_SPAN == 0 ==> Elapsed16(out + network, 1) == if network > 0 then network - 1 else U16_SPAN - 1
  {
  }
}
