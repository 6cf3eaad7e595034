/** Application frames end to end: cut into fragments, carried by channel 0, reassembled. */
module FrameDelivery {
  import opened Bytes
  import opened Protocol
  import SspStates
  import Histories
  import opened Delivery
  import Convergence
  import Chunks
  import opened Fragments
  import ScreenFrames
  import E = EndToEnd

  /** The fragments of these frames, in order, are all `a` accepted; it may be part-way through. */
  ghost predicate Bridges(log: seq<Bytes>, sendings: seq<Sending>) {
    AllSendable(sendings) && DistinctIds(sendings) && log <= Stream(sendings)
  }

  /**
   * Over every run of a lossy, repeating, reordering network: reassembling what the
   * receiver drained gives the frames complete in it, whole, in order and once each.
   */
  lemma FramesInOrder(initialA: SspStates.SspState, initialB: SspStates.SspState, maxA: nat, maxB: nat, steps: seq<Step>,
                      sendings: seq<Sending>, epoch: nat)
    requires CanStart(CHANNEL_MESSAGES, initialA, initialB) && Possible(SspStates.QueueKind, steps)
    requires var start := Start(CHANNEL_MESSAGES, initialA, initialB, maxA, maxB);
             Inv(start) && Bridges(Accepted(start, steps), sendings)
    ensures var m := Run(Start(CHANNEL_MESSAGES, initialA, initialB, maxA, maxB), steps);
            FeedAll(Idle, epoch, m.b.delivered).1 == Finished(sendings, |m.b.delivered|)
  {
    hide Inv, Half;
    var start := Start(CHANNEL_MESSAGES, initialA, initialB, maxA, maxB);
    ExactlyOnceInOrder(initialA, initialB, maxA, maxB, steps);
    var m := Run(start, steps);
    var log := Accepted(start, steps);
    var n := |m.b.delivered|;
    assert m.b.delivered == (m.b.delivered + m.b.chan.received.queue.messages)[..n];
    assert m.b.delivered == log[..n] == Stream(sendings)[..n];
    StreamReassembles(Idle, epoch, sendings, n);
  }

  ghost function Payloads(sendings: seq<Sending>): seq<Bytes> {
    seq(|sendings|, k requires 0 <= k < |sendings| => sendings[k].payload)
  }

  lemma {:induction false} AllFinished(sendings: seq<Sending>)
    requires AllSendable(sendings) && forall s | s in sendings :: s.left == Chunks.ChunkCount(|s.payload|)
    ensures Finished(sendings, |Stream(sendings)|) == Payloads(sendings)
    decreases sendings
  {
    if sendings != [] {
      hide FragmentsOf, Chunks.ChunkCount;
      AllFinished(sendings[1..]);
      assert Payloads(sendings) == [sendings[0].payload] + Payloads(sendings[1..]);
    }
  }

  lemma DrainTakesRest(n: Net)
    requires Inv(n) && n.b.chan.received.Messages?
    ensures Take(n, AtB(Draining)).b.delivered == n.b.delivered + n.b.chan.received.queue.messages
  {
    hide Half;
    assert Half(Flip(n));
    assert Flip(n).a.chan.Typed() by { IsTyped(Flip(n)); }
  }

  lemma IsTyped(n: Net)
    requires Half(n)
    ensures n.a.chan.Typed()
  {
  }

  /**
   * Once the network stops losing, as many exchanges as the receiver is behind deliver
   * every frame that was sent.
   */
  lemma EveryFrameArrives(n: Net, sendings: seq<Sending>, epoch: nat, count: nat, t: nat)
    requires Inv(n) && n.a.chan.initial.Messages? && Convergence.Passable(n) && count >= Convergence.Gap(n)
    requires AllSendable(sendings) && DistinctIds(sendings)
    requires forall s | s in sendings :: s.left == Chunks.ChunkCount(|s.payload|)
    requires Histories.Newest(n.a.hist) == Stream(sendings)
    ensures var m := Take(Convergence.Exchanges(n, count, t), AtB(Draining));
            FeedAll(Idle, epoch, m.b.delivered).1 == Payloads(sendings)
  {
    hide Half, Stream, FeedAll;
    Convergence.ConvergesExactly(n, count, t);
    DrainTakesRest(Convergence.Exchanges(n, count, t));
    var whole := Stream(sendings);
    StreamReassembles(Idle, epoch, sendings, |whole|);
    assert whole[..|whole|] == whole;
    AllFinished(sendings);
  }

  // ---------- through whole sessions ----------

  /**
   * Two sessions over a hostile network: when all that `a` queued comes from the bridge's
   * frames, what `b` took reassembles to the frames complete in it, whole and in order.
   */
  lemma FramesThroughSessions(y: E.System, steps: seq<E.Step>, sendings: seq<Sending>, epoch: nat)
    requires E.IsStart(y) && E.Possible(steps) && |steps| <= U64_SPAN
    requires AllSendable(sendings) && DistinctIds(sendings) && E.Run(y, steps).a.queued <= Stream(sendings)
    ensures var z := E.Run(y, steps); FeedAll(Idle, epoch, z.b.taken).1 == Finished(sendings, |z.b.taken|)
  {
    hide FeedAll, Stream, E.Run, E.IsStart;
    E.SessionsDeliver(y, steps);
    var z := E.Run(y, steps);
    var n := |z.b.taken|;
    assert z.b.taken == z.a.queued[..n] == Stream(sendings)[..n];
    StreamReassembles(Idle, epoch, sendings, n);
  }

  /** When all that `a` shows comes from `send_screen_frame`, `b` completes only whole frames. */
  lemma ScreensThroughSessions(y: E.System, steps: seq<E.Step>, bodies: set<Bytes>)
    requires E.IsStart(y) && E.Possible(steps) && |steps| <= U64_SPAN
    requires ScreenFrames.OnlyFrames(E.Run(y, steps).a.shown, bodies)
    requires forall body | body in bodies :: Chunks.ChunkCount(|body|) < U32_SPAN
    ensures var z := E.Run(y, steps);
            && z.b.session.screen.received.Screen?
            && var shown := ScreenFrames.CompleteFrame(z.b.session.screen.received.grid.rows);
               shown.Some? ==> shown.value in bodies
  {
    hide E.Run, E.IsStart;
    E.SessionsDeliver(y, steps);
    var z := E.Run(y, steps);
    ScreenFrames.PartCompletes(z.a.shown[z.b.session.screen.receivedNum], bodies);
  }
}
