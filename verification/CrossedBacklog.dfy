/**
 * Two sessions, one with more messages than fit one datagram, the other with more rows: each
 * always has something due, so neither ever acknowledges the other, and nothing more arrives.
 */
module CrossedBacklogs {
  import opened Bytes
  import opened Channels
  import opened Convergence
  import opened EndToEnd
  import opened Histories
  import opened MessageQueues
  import opened OneWays
  import Packets
  import opened Protocol
  import opened RowGrids
  import opened SessionConvergences
  import opened Sessions
  import SessionTurns
  import opened SspStates
  import opened Wrappers
  import D = Delivery

  // ---------- the jam ----------

  /**
   * `a` has more to send on `n` than its next Instruction carries, and nothing on the other
   * channel `o`, where nothing of its is in flight; `b` has no more than that Instruction brings.
   */
  ghost predicate Backlogged(n: D.Net, o: D.Net) {
    && n.a.chan.Typed() && n.a.chan.NextInstruction().Ok?
    && var i := n.a.chan.NextInstruction().value;
    && n.a.chan.IsPending() && i.newNum < n.a.chan.currentNum && n.a.chan.sentNum <= i.newNum
    && (forall j | j in n.toB :: j.newNum <= i.newNum)
    && n.b.chan.receivedNum <= i.newNum
    && !o.a.chan.IsPending() && o.toB == {}
  }

  /** Each side is backlogged on the channel the other is not. */
  ghost predicate Crossed(n: D.Net, o: D.Net) { Backlogged(n, o) && Backlogged(D.Flip(o), D.Flip(n)) }

  /** `a` on channel 0 and `b` on channel 1, or the other way round. */
  ghost predicate Jammed(y: System, n0: D.Net, n1: D.Net, up: bool) {
    Link(y, n0, n1) && (if up then Crossed(n0, n1) else Crossed(n1, n0))
  }

  /** The application asks for nothing new. */
  predicate IsIdle(e: Event) { e.Tick? || e.Hear? || e.Drain? }

  /** A session whose newest state on `id` was never sent, and with nothing pending on the other channel. */
  ghost predicate OnlyUnsent(s: SessionState, id: nat) {
    if id == CHANNEL_MESSAGES
    then s.messages.IsPending() && s.messages.HasUnsentChange() && !s.screen.IsPending()
    else s.screen.IsPending() && s.screen.HasUnsentChange() && !s.messages.IsPending()
  }

  /** Whenever such a session may send, it sends on that channel, whatever it owes on the other. */
  lemma SaysOnlyThat(s: SessionState, id: nat, nowMs: nat)
    requires (id == CHANNEL_MESSAGES || id == CHANNEL_SCREEN) && OnlyUnsent(s, id)
    ensures s.Wanted(nowMs) == if s.FloorElapsed(nowMs) then [(id, false)] else []
    ensures s.FloorElapsed(nowMs) ==> s.DueChannels(nowMs) == [id]
  {
  }

  lemma BuildsOne(s: SessionState, id: nat, t: nat, draws: seq<Option<nat>>)
    requires s.Typed()
    ensures var (s', built) := s.Build(id, t, HeadDraw(draws), false);
            s.BuildAll([(id, false)], t, draws)
            == (s', match built case Err(e) => Err(e) case Ok(d) => Ok([d]))
  {
    hide SessionState.Build, SessionState.BuildAll, SessionState.Typed;
    var wanted := [(id, false)];
    BuildAllUnfolds(s, wanted, t, draws);
    var (s', built) := s.Build(id, t, HeadDraw(draws), false);
    assert wanted[1..] == [];
    BuildNothing(s', t, TailDraws(draws));
    assert built.Ok? ==> [built.value] + [] == [built.value];
  }

  lemma BuiltIsAll(y: System, s': SessionState, built: Result<Datagram, TransportError>)
    ensures AllBuilt(y, s', match built case Err(e) => Err(e) case Ok(d) => Ok([d])) == Built(y, s', built)
  {
  }

  /** A tick, with whatever its sequence source answers, sends at most on that channel. */
  lemma UnsentTicks(y: System, n0: D.Net, n1: D.Net, k: nat, id: nat, t: nat, draws: seq<Option<nat>>)
    returns (m0: D.Net, m1: D.Net)
    requires Link(y, n0, n1) && Short(n0, k) && Short(n1, k) && k < U64_SPAN
    requires (id == CHANNEL_MESSAGES || id == CHANNEL_SCREEN) && OnlyUnsent(y.a.session, id)
    ensures y.a.session.Typed() && Link(Act(y, Tick(t, draws)), m0, m1)
    ensures OnlySends(n0, m0) && OnlySends(n1, m1)
    ensures if id == CHANNEL_MESSAGES then m1 == n1 else m0 == n0
  {
    hide Link, SessionState.Outgoing, SessionState.BuildAll, SessionState.Build, SessionState.Wanted, SessionState.Typed,
      D.Inv, EndLinks, AllBuilt, Built, Short, SessionState.DueChannels, SessionState.FloorElapsed, ChannelState.Typed, Knows,
      OnlySends, OnlyUnsent, Act;
    LinkKinds(y, n0, n1);
    var s := y.a.session;
    SaysOnlyThat(s, id, t);
    SessionTurns.OutgoingIs(s, t, draws);
    SessionTurns.ActTicks(y, t, draws);
    m0, m1 := n0, n1;
    SendsNothing(n0);
    SendsNothing(n1);
    if !s.FloorElapsed(t) {
      BuiltNothing(y);
    } else {
      var (s', r) := s.Build(id, t, HeadDraw(draws), false);
      BuildsOne(s, id, t, draws);
      BuiltIsAll(y, s', r);
      if id == CHANNEL_MESSAGES {
        m0 := BuildMessagesLinks(y, n0, n1, k, t, HeadDraw(draws), false);
      } else {
        m1 := BuildScreenLinks(y, n0, n1, k, t, HeadDraw(draws), false);
      }
      if r.Ok? {
        TurnLinks(Built(y, s', r), m0, m1);
        SessionTurns.TurnedAfter(y, s', Ok([r.value]));
        BuiltIsAll(y, s', r);
      }
    }
  }

  // ---------- nothing gets it unstuck ----------

  lemma SendingStaysCrossed(n: D.Net, o: D.Net, m: D.Net)
    requires Crossed(n, o) && OnlySends(n, m)
    ensures Crossed(m, o)
  {
    SameNext(n.a.chan, m.a.chan.sentNum, m.a.chan.lastSentMs);
    hide ChannelState.NextInstruction, ChannelState.Typed;
  }

  /** What a backlog depends on. */
  lemma StaysBacklogged(n: D.Net, o: D.Net, n': D.Net, o': D.Net)
    requires Backlogged(n, o) && n.a.chan.Typed() && n'.a.chan.Typed() && n'.toB == n.toB
    requires n'.a.chan.NextInstruction() == n.a.chan.NextInstruction() && n'.a.chan.currentNum == n.a.chan.currentNum
    requires n'.a.chan.assumed == n.a.chan.assumed && n'.a.chan.sentNum == n.a.chan.sentNum
    requires n'.b.chan.receivedNum == n.b.chan.receivedNum || exists j | j in n.toB :: n'.b.chan.receivedNum == j.newNum
    requires !o'.a.chan.IsPending() && o'.toB == o.toB
    ensures Backlogged(n', o')
  {
    hide ChannelState.NextInstruction, ChannelState.Typed;
  }

  lemma HearingStaysCrossed(n: D.Net, o: D.Net, i: Packets.Instruction)
    requires Crossed(n, o) && D.Inv(o) && o.a.chan.Typed() && i in o.toA
    ensures Crossed(n, D.Act(o, D.Receiving(i)))
  {
    hide ChannelState.NextInstruction, ChannelState.Typed, D.Half, ChannelState.IsPending, Backlogged, D.Act, ChannelState.Apply;
    FlipKeepsInv(o);
    IdleStays(D.Flip(o), i);
    BackloggedKinds(n, o);
    BackloggedKinds(D.Flip(o), D.Flip(n));
    var o' := D.Act(o, D.Receiving(i));
    HearingIs(o, i);
    StaysBacklogged(n, o, n, o');
    StaysBacklogged(D.Flip(o), D.Flip(n), D.Flip(o'), D.Flip(n));
  }

  lemma HearingIs(o: D.Net, i: Packets.Instruction)
    requires o.a.chan.Typed() && i in o.toA
    ensures var o' := D.Act(o, D.Receiving(i));
            && o' == o.(a := o.a.(chan := o.a.chan.Apply(i).0))
            && (o'.a.chan.receivedNum == o.a.chan.receivedNum || o'.a.chan.receivedNum == i.newNum)
  {
    HeardIsLocal(o.a.chan, i.ackNum, i.throwawayNum);
    hide ChannelState.Heard, ChannelState.Typed;
  }

  lemma BackloggedKinds(n: D.Net, o: D.Net)
    requires Backlogged(n, o)
    ensures n.a.chan.Typed() && !o.a.chan.IsPending()
  {
    hide ChannelState.NextInstruction, ChannelState.Typed;
  }

  lemma {:induction false} SameReachDrained(c: ChannelState, received: SspState, k: nat)
    requires c.Typed() && received.Kind() == c.initial.Kind() && k < |c.sent|
    ensures var c' := c.(received := received); c'.Reach(k) == c.Reach(k) && c'.StepDiff(k) == c.StepDiff(k)
    decreases |c.sent| - k
  {
    if k + 1 < |c.sent| {
      SameReachDrained(c, received, k + 1);
    }
  }

  /** What is held is no part of what is sent. */
  lemma SameNextDrained(c: ChannelState, received: SspState)
    requires c.Typed() && received.Kind() == c.initial.Kind()
    ensures c.(received := received).NextInstruction() == c.NextInstruction()
  {
    SameReachDrained(c, received, 0);
    SameReachDrained(c, received, c.Reach(0));
    hide ChannelState.Reach, ChannelState.StepDiff;
  }

  lemma DrainingStaysCrossed(n: D.Net, o: D.Net)
    requires Crossed(n, o) && n.a.chan.Typed() && o.a.chan.Typed()
    ensures Crossed(D.Act(n, D.Draining), o) && Crossed(n, D.Act(o, D.Draining))
  {
    hide ChannelState.NextInstruction, ChannelState.Typed, Backlogged, D.Act;
    BackloggedKinds(n, o);
    BackloggedKinds(D.Flip(o), D.Flip(n));
    var n', o' := D.Act(n, D.Draining), D.Act(o, D.Draining);
    DrainingIs(n);
    DrainingIs(o);
    StaysBacklogged(n, o, n', o);
    StaysBacklogged(n, o, n, o');
    StaysBacklogged(D.Flip(o), D.Flip(n), D.Flip(o), D.Flip(n'));
    StaysBacklogged(D.Flip(o), D.Flip(n), D.Flip(o'), D.Flip(n));
  }

  lemma DrainingIs(n: D.Net)
    requires n.a.chan.Typed()
    ensures var n' := D.Act(n, D.Draining);
            && n'.toA == n.toA && n'.toB == n.toB && n'.b == n.b && n'.a.chan.Typed()
            && n'.a.chan.NextInstruction() == n.a.chan.NextInstruction()
            && n'.a.chan.currentNum == n.a.chan.currentNum && n'.a.chan.assumed == n.a.chan.assumed
            && n'.a.chan.sentNum == n.a.chan.sentNum && n'.a.chan.receivedNum == n.a.chan.receivedNum
  {
    hide ChannelState.NextInstruction, D.Act;
    DrainIs(n);
    if n.a.chan.received.Messages? {
      SameNextDrained(n.a.chan, Messages(n.a.chan.received.queue.Drain()));
    }
  }

  lemma DrainIs(n: D.Net)
    requires n.a.chan.Typed()
    ensures n.a.chan.received.Messages? ==>
              D.Act(n, D.Draining) == n.(a := n.a.(chan := n.a.chan.(received := Messages(n.a.chan.received.queue.Drain())),
                                                   delivered := n.a.delivered + n.a.chan.received.queue.messages))
    ensures !n.a.chan.received.Messages? ==> D.Act(n, D.Draining) == n
  {
    hide ChannelState.NextInstruction, ChannelState.Typed;
  }

  lemma CrossedIsUnsent(y: System, n0: D.Net, n1: D.Net, up: bool)
    requires Jammed(y, n0, n1, up)
    ensures OnlyUnsent(y.a.session, if up then CHANNEL_MESSAGES else CHANNEL_SCREEN)
    ensures up ==> n0.toA == {}
    ensures !up ==> n1.toA == {}
  {
    LinkKinds(y, n0, n1);
    if up {
      UnsentIs(n0, n1);
    } else {
      UnsentIs(n1, n0);
    }
    hide Link, D.Inv, Knows, Backlogged, ChannelState.Typed, SessionState.Typed, ChannelState.IsPending, ChannelState.HasUnsentChange;
  }

  lemma UnsentIs(n: D.Net, o: D.Net)
    requires Crossed(n, o)
    ensures n.a.chan.IsPending() && n.a.chan.HasUnsentChange() && !o.a.chan.IsPending() && n.toA == {}
  {
    hide ChannelState.NextInstruction;
  }

  /** Whatever happens at `a`, short of its application asking for something new. */
  lemma JamActs(y: System, n0: D.Net, n1: D.Net, k: nat, up: bool, e: Event) returns (m0: D.Net, m1: D.Net)
    requires Jammed(y, n0, n1, up) && Short(n0, k) && Short(n1, k) && k < U64_SPAN && IsIdle(e)
    ensures y.a.session.Typed() && Jammed(Act(y, e), m0, m1, up) && Short(m0, k) && Short(m1, k)
  {
    hide Link, Act, EndLinks, D.Inv, D.Act, Backlogged, Crossed, SessionState.Typed, ChannelState.Typed, OnlyUnsent, OnlySends,
      Knows, Delivers, Short;
    LinkKinds(y, n0, n1);
    CrossedIsUnsent(y, n0, n1, up);
    match e
    case Tick(t, draws) =>
      m0, m1 := UnsentTicks(y, n0, n1, k, if up then CHANNEL_MESSAGES else CHANNEL_SCREEN, t, draws);
      if up {
        SendingStaysCrossed(n0, n1, m0);
      } else {
        SendingStaysCrossed(n1, n0, m1);
      }
      SendsStayShort(n0, m0, k);
      SendsStayShort(n1, m1, k);
    case Hear(d, heardMs, sampledRto) =>
      m0, m1 := HearLinks(y, n0, n1, d, heardMs, sampledRto);
      if d in y.toA {
        var i :| Delivers(n0, n1, m0, m1, i);
        DeliversOther(n0, n1, m0, m1, i, up);
        if up {
          HearingStaysCrossed(n0, n1, i);
        } else {
          HearingStaysCrossed(n1, n0, i);
        }
      }
      SameIsShort(n0, m0, k);
      SameIsShort(n1, m1, k);
    case Drain =>
      m0 := DrainLinks(y, n0, n1);
      m1 := n1;
      if up {
        DrainingStaysCrossed(n0, n1);
      } else {
        DrainingStaysCrossed(n1, n0);
      }
      SameIsShort(n0, m0, k);
  }

  lemma SameIsShort(n: D.Net, m: D.Net, k: nat)
    requires Short(n, k) && m.a.hist == n.a.hist && m.b == n.b
    ensures Short(m, k)
  {
  }

  lemma DeliversOther(n0: D.Net, n1: D.Net, m0: D.Net, m1: D.Net, i: Packets.Instruction, up: bool)
    requires Delivers(n0, n1, m0, m1, i) && (if up then n0.toA == {} else n1.toA == {})
    ensures n0.a.chan.Typed() && n1.a.chan.Typed()
    ensures if up then i in n1.toA && m1 == D.Act(n1, D.Receiving(i)) && m0 == n0
            else i in n0.toA && m0 == D.Act(n0, D.Receiving(i)) && m1 == n1
  {
    hide D.Act;
  }

  // ---------- runs ----------

  ghost predicate AllIdle(steps: seq<Step>) { forall s | s in steps :: IsIdle(s.event) }

  lemma JamFlips(y: System, n0: D.Net, n1: D.Net, up: bool)
    requires Jammed(y, n0, n1, up)
    ensures Jammed(Flip(y), D.Flip(n0), D.Flip(n1), !up)
  {
    FlipKeepsLink(y, n0, n1);
    assert D.Flip(D.Flip(n0)) == n0 && D.Flip(D.Flip(n1)) == n1;
    hide Link, Backlogged;
  }

  lemma JamTakes(y: System, n0: D.Net, n1: D.Net, k: nat, up: bool, step: Step) returns (m0: D.Net, m1: D.Net)
    requires Jammed(y, n0, n1, up) && Short(n0, k) && Short(n1, k) && k < U64_SPAN && IsIdle(step.event)
    ensures Jammed(EndToEnd.Take(y, step), m0, m1, up) && Short(m0, k) && Short(m1, k)
  {
    hide Jammed, Act, SessionState.Typed, Short;
    match step
    case AtA(e) => m0, m1 := JamActs(y, n0, n1, k, up, e);
    case AtB(e) =>
      JamFlips(y, n0, n1, up);
      FlipStaysShort(n0, k);
      FlipStaysShort(n1, k);
      m0, m1 := JamActs(Flip(y), D.Flip(n0), D.Flip(n1), k, !up, e);
      JamFlips(Act(Flip(y), e), m0, m1, !up);
      FlipStaysShort(m0, k);
      FlipStaysShort(m1, k);
      m0, m1 := D.Flip(m0), D.Flip(m1);
  }

  lemma {:induction false} JamRuns(y: System, n0: D.Net, n1: D.Net, k: nat, up: bool, steps: seq<Step>)
    returns (m0: D.Net, m1: D.Net)
    requires Jammed(y, n0, n1, up) && Short(n0, k) && Short(n1, k) && k < U64_SPAN && AllIdle(steps)
    ensures Jammed(EndToEnd.Run(y, steps), m0, m1, up)
    decreases steps
  {
    hide Jammed, EndToEnd.Take, Short;
    m0, m1 := n0, n1;
    if steps != [] {
      assert steps[0] in steps;
      m0, m1 := JamTakes(y, n0, n1, k, up, steps[0]);
      m0, m1 := JamRuns(EndToEnd.Take(y, steps[0]), m0, m1, k, up, steps[1..]);
    }
  }

  lemma JamStalls(y: System, n0: D.Net, n1: D.Net)
    requires Jammed(y, n0, n1, true)
    ensures !AllArrived(y) && !NewestShown(Flip(y))
  {
    LinkKinds(y, n0, n1);
    NewestSeen(y, n0, n1);
    FlipKeepsLink(y, n0, n1);
    NewestSeen(Flip(y), D.Flip(n0), D.Flip(n1));
    NumbersOf(n0);
    FlipKeepsInv(n1);
    NumbersOf(D.Flip(n1));
    StillBehind(n0, n1);
    StillBehind(D.Flip(n1), D.Flip(n0));
    hide Link, D.Inv, Knows, Backlogged, AllArrived, NewestShown, ChannelState.Typed, SessionState.Typed;
  }

  lemma StillBehind(n: D.Net, o: D.Net)
    requires Backlogged(n, o)
    ensures n.b.chan.receivedNum < n.a.chan.currentNum
  {
    hide ChannelState.NextInstruction;
  }

  // ---------- it happens ----------

  /** Nothing sent, nothing heard. */
  ghost predicate Untold(s: SessionState) {
    && s.messages.assumed == s.messages.sentNum == s.messages.receivedNum == 0
    && s.screen.assumed == s.screen.sentNum == s.screen.receivedNum == 0
  }

  ghost predicate OnlyAsked(y: System, n0: D.Net, n1: D.Net) {
    && Link(y, n0, n1) && n0.toA == n0.toB == n1.toA == n1.toB == {}
    && Untold(y.a.session) && Untold(y.b.session)
    && !y.a.session.screen.IsPending() && !y.b.session.messages.IsPending()
  }

  /** Messages are queued at `a`, and grids shown at `b`, before anything is sent. */
  ghost predicate Asking(steps: seq<Step>) {
    forall s | s in steps :: (s.AtA? && s.event.Queue?) || (s.AtB? && s.event.Show? && |s.event.rows| < U32_SPAN)
  }

  lemma AskTakes(y: System, n0: D.Net, n1: D.Net, k: nat, step: Step) returns (m0: D.Net, m1: D.Net)
    requires OnlyAsked(y, n0, n1) && Short(n0, k) && Short(n1, k) && Asking([step])
    ensures OnlyAsked(EndToEnd.Take(y, step), m0, m1) && Short(m0, k + 1) && Short(m1, k + 1)
  {
    hide Link, EndLinks, D.Inv, SessionState.Typed, ChannelState.Typed, Knows, Offer;
    assert step in [step];
    LinkKinds(y, n0, n1);
    SessionTurns.PeerKinds(y, n0, n1);
    m0, m1 := n0, n1;
    match step
    case AtA(e) =>
      m0 := QueueLinks(y, n0, n1, e.body);
      QueueStaysUntold(y.a.session, e.body);
    case AtB(e) =>
      FlipKeepsLink(y, n0, n1);
      m1 := ShowLinks(Flip(y), D.Flip(n0), D.Flip(n1), e.rows);
      ShowStaysUntold(y.b.session, e.rows);
      FlipKeepsLink(Act(Flip(y), e), D.Flip(n0), m1);
      m1 := D.Flip(m1);
      assert D.Flip(D.Flip(n0)) == n0;
  }

  lemma QueueStaysUntold(s: SessionState, body: Bytes)
    requires s.Typed()
    ensures var s' := s.QueueMessage(body).0; s'.screen == s.screen && (Untold(s) ==> Untold(s'))
  {
    if Offer(s.messages, PushMessage(body)).Ok? {
      OfferOnlyAdds(s.messages, PushMessage(body));
    }
    hide Offer;
  }

  lemma ShowStaysUntold(s: SessionState, rows: seq<Bytes>)
    requires s.Typed()
    ensures var s' := s.ReplaceScreen(rows).0; s'.messages == s.messages && (Untold(s) ==> Untold(s'))
  {
    if Offer(s.screen, SetRows(rows)).Ok? {
      OfferOnlyAdds(s.screen, SetRows(rows));
    }
    hide Offer;
  }

  lemma OfferOnlyAdds(c: ChannelState, change: Change)
    requires c.Typed() && change.Kind() == c.initial.Kind() && Offer(c, change).Ok?
    ensures var c' := Offer(c, change).value;
            c'.assumed == c.assumed && c'.sentNum == c.sentNum && c'.receivedNum == c.receivedNum
  {
    hide SspState.Changed;
  }

  lemma {:induction false} AskRuns(y: System, n0: D.Net, n1: D.Net, k: nat, steps: seq<Step>) returns (m0: D.Net, m1: D.Net)
    requires OnlyAsked(y, n0, n1) && Short(n0, k) && Short(n1, k) && Asking(steps)
    ensures OnlyAsked(EndToEnd.Run(y, steps), m0, m1) && Short(m0, k + |steps|) && Short(m1, k + |steps|)
    decreases steps
  {
    hide OnlyAsked, EndToEnd.Take, Short;
    m0, m1 := n0, n1;
    if steps != [] {
      assert steps[0] in steps;
      m0, m1 := AskTakes(y, n0, n1, k, steps[0]);
      m0, m1 := AskRuns(EndToEnd.Take(y, steps[0]), m0, m1, k + 1, steps[1..]);
    }
  }

  /** Before anything was sent, a history that does not fit one datagram is a backlog. */
  lemma UnsentBacklog(n: D.Net, o: D.Net)
    requires D.Inv(n) && n.toB == o.toB == {} && !o.a.chan.IsPending()
    requires n.a.chan.assumed == n.a.chan.sentNum == n.b.chan.receivedNum == 0
    requires Chain(n.a.chan.initial.Kind(), n.a.hist)
    requires |Between(n.a.chan.initial.Kind(), n.a.hist, 0, |n.a.hist| - 1)| > MAX_DIFF_LEN
    ensures Backlogged(n, o)
  {
    hide ChannelState.NextInstruction, Between, Chosen, D.Held;
    NumbersOf(n);
    NextIsChosen(n.a.chan, n.a.hist);
    ChosenFits(n.a.chan, n.a.hist, 0);
    NothingPendingFits(n.a.chan.initial.Kind(), n.a.hist, 0);
  }

  lemma QueueBetween(queued: seq<Bytes>)
    ensures Between(QueueKind, Prefixes(queued), 0, |queued|) == EncodeMessages(queued)
  {
    assert queued[0..] == queued;
  }

  lemma AskedIsJammed(y: System, n0: D.Net, n1: D.Net)
    requires OnlyAsked(y, n0, n1)
    requires |EncodeMessages(y.a.queued)| > MAX_DIFF_LEN
    requires |Grid(Newest(y.b.shown)).DiffFrom(EMPTY_GRID)| > MAX_DIFF_LEN
    ensures Jammed(y, n0, n1, true)
  {
    hide Link, D.Inv, EncodeMessages, Grid.DiffFrom, Backlogged, Knows, ChannelState.Typed, SessionState.Typed, Prefixes;
    HistoriesAre(y, n0, n1);
    FlipKeepsLink(y, n0, n1);
    HistoriesAre(Flip(y), D.Flip(n0), D.Flip(n1));
    LinkKinds(y, n0, n1);
    SessionTurns.PeerKinds(y, n0, n1);
    FlipKeepsInv(n1);
    QueueBetween(y.a.queued);
    assert n1.b.hist[0] == [];
    UnsentBacklog(n0, n1);
    UnsentBacklog(D.Flip(n1), D.Flip(n0));
  }

  lemma StartAsks(y: System, n0: D.Net, n1: D.Net)
    requires IsStart(y) && Link(y, n0, n1) && n0.toA == n0.toB == n1.toA == n1.toB == {}
    ensures OnlyAsked(y, n0, n1)
  {
    hide Link;
  }

  /**
   * Two fresh paired sessions: messages are queued at one, grids shown at the other, and neither
   * what was queued nor the newest grid fits one datagram. Then over every run in which nothing new
   * is asked for, whatever the times of the ticks and whatever is delivered, the messages never all
   * arrive, and the newest grid never does.
   */
  lemma CrossedBacklogsStall(y: System, asked: seq<Step>, idle: seq<Step>)
    requires IsStart(y) && Asking(asked) && |asked| < U64_SPAN && AllIdle(idle)
    requires var z := EndToEnd.Run(y, asked);
             && |EncodeMessages(z.a.queued)| > MAX_DIFF_LEN
             && |Grid(Newest(z.b.shown)).DiffFrom(EMPTY_GRID)| > MAX_DIFF_LEN
    ensures var done := EndToEnd.Run(EndToEnd.Run(y, asked), idle);
            !AllArrived(done) && !NewestShown(Flip(done))
  {
    hide Link, D.Inv, EndToEnd.Run, EncodeMessages, Grid.DiffFrom, Backlogged, Jammed, AllArrived, NewestShown, OnlyAsked;
    var n0, n1 := StartLinks(y);
    StartAsks(y, n0, n1);
    var m0, m1 := AskRuns(y, n0, n1, 0, asked);
    AskedIsJammed(EndToEnd.Run(y, asked), m0, m1);
    var l0, l1 := JamRuns(EndToEnd.Run(y, asked), m0, m1, |asked|, true, idle);
    JamStalls(EndToEnd.Run(EndToEnd.Run(y, asked), idle), l0, l1);
  }

  // ---------- an example ----------

  /** Two messages and two rows, of a size of which one datagram carries one. */
  function Large(): (b: Bytes)
    ensures |b| == 1_000
  {
    seq(1_000, _ => 0)
  }

  ghost function AskedFor(): (asked: seq<Step>)
    ensures Asking(asked)
  {
    [AtA(Event.Queue(Large())), AtA(Event.Queue(Large())), AtB(Show([Large()])), AtB(Show([Large(), Large()]))]
  }

  lemma TwoLargeMessages()
    ensures |EncodeMessages([Large(), Large()])| > MAX_DIFF_LEN
  {
    var two := [Large(), Large()];
    assert two[1..] == [Large()] && [Large()][1..] == [];
    FramesLength(two);
    hide Frames, EncodeMessages;
  }

  lemma LargeRows()
    ensures |Grid([Large()]).DiffFrom(EMPTY_GRID)| <= MAX_DIFF_LEN
    ensures |Grid([Large(), Large()]).DiffFrom(Grid([Large()]))| <= MAX_DIFF_LEN
    ensures |Grid([Large(), Large()]).DiffFrom(EMPTY_GRID)| > MAX_DIFF_LEN
  {
    var one, two := [Large()], [Large(), Large()];
    var u0, u1 := Update(0, Large()), Update(1, Large());
    assert RowGrids.Changed(one, [], 1) == [u0] by { assert RowGrids.Changed(one, [], 0) == []; }
    assert RowGrids.Changed(two, [], 1) == [u0] by { assert RowGrids.Changed(two, [], 0) == []; }
    assert RowGrids.Changed(two, [], 2) == [u0] + [u1] == [u0, u1];
    assert RowGrids.Changed(two, one, 1) == [] by { assert RowGrids.Changed(two, one, 0) == []; }
    assert RowGrids.Changed(two, one, 2) == [u1];
    RowFramesLength([u0]);
    RowFramesLength([u1]);
    RowFramesLength([u0, u1]);
    assert [u0, u1][1..] == [u1] && [u0][1..] == [] && [u1][1..] == [];
    hide RowGrids.Changed, RowFrames;
  }

  /** What accepting a change leaves a channel that has nothing acknowledged. */
  lemma QueueAccepts(y: System)
    requires y.a.session.Typed() && y.a.session.messages.current.Messages?
    requires |y.a.session.messages.sent| < y.a.session.messages.maxSent
    requires y.a.session.messages.current.queue.HasRoom(1, |Large()|)
    ensures var y' := EndToEnd.Take(y, AtA(Event.Queue(Large())));
            && y'.b == y.b && y'.a.queued == y.a.queued + [Large()] && y'.a.session.Typed()
            && y'.a.session.messages.current == Messages(y.a.session.messages.current.queue.Push(Large()).value)
            && |y'.a.session.messages.sent| == |y.a.session.messages.sent| + 1
            && y'.a.session.messages.maxSent == y.a.session.messages.maxSent
  {
  }

  lemma ShowAccepts(y: System, rows: seq<Bytes>)
    requires y.b.session.Typed() && y.b.session.screen.current.Screen?
    requires |y.b.session.screen.sent| < y.b.session.screen.maxSent
    requires |Grid(rows).DiffFrom(y.b.session.screen.current.grid)| <= MAX_DIFF_LEN
    ensures var y' := EndToEnd.Take(y, AtB(Show(rows)));
            && y'.a == y.a && y'.b.shown == y.b.shown + [rows] && y'.b.session.Typed()
            && y'.b.session.screen.current == Screen(Grid(rows))
            && |y'.b.session.screen.sent| == |y.b.session.screen.sent| + 1
            && y'.b.session.screen.maxSent == y.b.session.screen.maxSent
  {
    hide Grid.DiffFrom;
  }

  /** From any two fresh sessions with the default limits: four requests after which they are stuck. */
  lemma CrossingHappens(y: System, idle: seq<Step>)
    requires IsStart(y) && y.a.session.messages.initial == Messages(EmptyQueue(DEFAULT_LIMITS)) && AllIdle(idle)
    requires y.a.session.messages.maxSent >= 3 && y.b.session.screen.maxSent >= 3
    ensures var done := EndToEnd.Run(EndToEnd.Run(y, AskedFor()), idle);
            !AllArrived(done) && !NewestShown(Flip(done))
  {
    hide EndToEnd.Take, EncodeMessages, Grid.DiffFrom, AllArrived, NewestShown;
    StartIsTyped(y);
    var asked := AskedFor();
    QueueAccepts(y);
    var y1 := EndToEnd.Take(y, asked[0]);
    QueueAccepts(y1);
    var y2 := EndToEnd.Take(y1, asked[1]);
    LargeRows();
    ShowAccepts(y2, [Large()]);
    var y3 := EndToEnd.Take(y2, asked[2]);
    ShowAccepts(y3, [Large(), Large()]);
    var y4 := EndToEnd.Take(y3, asked[3]);
    RunsFour(y, asked);
    TwoLargeMessages();
    assert [] + [Large()] + [Large()] == [Large(), Large()];
    CrossedBacklogsStall(y, asked, idle);
  }

  lemma StartIsTyped(y: System)
    requires IsStart(y)
    ensures y.a.session.Typed() && y.b.session.Typed()
    ensures y.a.session.messages.current == y.a.session.messages.initial && |y.a.session.messages.sent| == 1
    ensures y.b.session.screen.current == Screen(EMPTY_GRID) && |y.b.session.screen.sent| == 1
    ensures y.a.queued == [] && y.b.shown == [[]]
  {
  }

  lemma RunsFour(y: System, steps: seq<Step>)
    requires |steps| == 4
    ensures EndToEnd.Run(y, steps)
         == EndToEnd.Take(EndToEnd.Take(EndToEnd.Take(EndToEnd.Take(y, steps[0]), steps[1]), steps[2]), steps[3])
  {
    hide EndToEnd.Take;
    var y1 := EndToEnd.Take(y, steps[0]);
    var y2 := EndToEnd.Take(y1, steps[1]);
    var y3 := EndToEnd.Take(y2, steps[2]);
    assert EndToEnd.Run(y3, steps[3..]) == EndToEnd.Take(y3, steps[3]) by { assert steps[3..][1..] == []; }
    assert EndToEnd.Run(y2, steps[2..]) == EndToEnd.Run(y3, steps[3..]);
    assert EndToEnd.Run(y1, steps[1..]) == EndToEnd.Run(y2, steps[2..]);
  }
}
