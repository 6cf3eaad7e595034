# Verification of the medulla link

This project models the transport that `medulla-link` runs between two enrolled machines, and proves
what it promises. Two sessions each keep two channels: channel 0 is an append-only queue of messages,
channel 1 a latest-wins grid of rows. Every channel numbers the states it makes, keeps those its peer has
not acknowledged, and sends the difference between the state it believes the peer holds and the newest one
that fits a 1400-octet datagram. The network may lose, repeat, delay and reorder anything.

How the files build on one another:

- `Bytes`, `Words`, `BitPacking`, `Chunks`, `Text`: octets, 64-bit words, bit strings, frame pieces and text.
- `MessageQueue`, `RowGrid`, `Packet`, `Header`: the two kinds of state, their diffs, and the wire codecs.
- `SspState`, `Channel`, `History`: one channel and what its retained history means; why it never wedges.
- `Delivery`, `Convergence`: two endpoints of one channel over a hostile network, as a state machine with an
  inductive invariant; progress once the network stops losing; `TallGrid`, grids that never get through.
- `Restart`, `Overlap`, `RestartHazards`, `DoubleDelivery`: rebasing a channel; what happens between a peer's
  restart and the moment the survivor hears of it; when the two agree afterwards, and what goes wrong otherwise.
- `Session`, `Schedule`, `DirectRoute`: a whole session, its send schedule, the peer's epochs, and which
  datagrams may move a direct route.
- `EndToEnd`: two whole sessions exchanging sealed datagrams over a network that also alters and forges them.
  Each of their channels is shown to be a run of `Delivery`, so everything proved there holds of the sessions.
- `SessionTurn`, `SessionConvergence`, `OneWay`, `CrossedBacklog`: which channels a tick sends on; when ticking
  two sessions over a network that loses nothing brings everything across, and when it never does.
- `Fragments`, `ScreenFrames`, `FrameDelivery`: application frames on top of the two channels, end to end.
- `SequenceNumbers`, `Forwarder`: reserved sequence numbers and AEAD nonces across crashes; the blind
  forwarder's replay window, bindings and teams.
- `Civil`, `Iso`, `Crockford`, `PairKey`, `HostKey`: the calendar, timestamps as text, and keys as text.

Code that updates fields or loops is a class or a method with its loop, proved against a function of the same
name on values; the laws are proved about the functions. Ghost histories (`History`) record every state a
channel ever made; nothing in the program stores them.

Where the source's comments and its code disagree, the model follows the code:

- `transport/channel.rs:73-75` says channel 0 is not preserved when a peer restarts. The code preserves it:
  exactly the unacknowledged messages are renumbered from 1 (`Restart.ResetKeepsPending`).
- `transport/mod.rs:395-398` says a straggler of a retired epoch cannot move a direct route. It returns before
  the flag is refreshed, so the flag of the datagram before it decides (`DirectRoute.RetiredFollowsOldFlag`
  gives the exact condition), and a run that ends with the route moved exists from every fresh session
  (`DirectRoute.ReplayIsReachable`).
- `bridge/link.rs:258-262` says a frame in progress is never evicted. It is lost exactly to a fragment of its
  own id that declares another count, or of another id that has index 0 or another epoch
  (`Fragments.LostExactly`); this is what lets an abandoned frame be superseded.
- `clock.rs:65` calls the parser the inverse of the printer. `Iso.RoundTrip` proves it for exactly the years
  0 to 292,000,000; every other printable instant is refused.
- The forwarder's module comment describes a 58-octet header of version 1; the code it calls reads the
  66-octet header of version 2, with an epoch field.

What the code promises and does not always keep, each with an input that fails and, but for the crossed backlogs,
the exact condition:

- A survivor goes on sending under its old numbers until it hears its restarted peer, and the fresh peer takes
  those datagrams in, because the survivor's epoch has not changed. After the rebase each direction is in order
  if and only if it was safe (`Overlaps.RebaseExactly`; in terms a caller can check,
  `Overlaps.QueueSafeExactly` and `Overlaps.GridSafeExactly`). On channel 0 exactly-once fails when an
  Instruction from before the rebase arrives after it: the fresh peer takes messages it already has a second
  time, and as many later ones are never sent (`DoubleDeliveries.StaleDiffTaken`, reached by
  `DoubleDeliveries.DoubleDeliveryHappens`). A stale acknowledgement that the fresh peer takes up starves the
  survivor for good, unless something it sent before that is still on its way
  (`RestartHazards.StaleAckStarves`, reached by `RestartHazards.StarvationHappens`). On channel 1 the fresh peer
  can end up with a complete frame that nobody sent (`RestartHazards.TearsAfterRebase`, reached by
  `RestartHazards.TornFrameHappens`), or with a number the survivor does not know
  (`RestartHazards.ReportIgnored`).
- `outgoing` sends a bare acknowledgement only when no channel is due, and a channel whose newest state was never
  sent is due as soon as the floor has passed (`SessionTurns.SpeaksExactly`). Two sessions of which one has more
  messages and the other more rows than one datagram carries therefore never acknowledge each other, and the
  rest never arrives, whatever the times and the network (`CrossedBacklogs.CrossedBacklogsStall`, reached by
  `CrossedBacklogs.CrossingHappens`). With all the backlog at one end everything arrives (`OneWays.BothArrive`).
- `set_screen` checks that a step fits one datagram, not that the grid has at most 65535 rows, and no receiver
  takes a taller one. Exchanges bring a receiver level if and only if every state that is sent on the way passes
  (`Convergence.ConvergesExactly`); 415 accepted grids lead to one that never does
  (`TallGrids.GrowIsAccepted`, `TallGrids.TallGridStalls`).
- `epoch_millis_from_iso` panics, instead of answering, exactly on a readable date followed by a zone of four octets
  whose middle is inside a character (`Iso.PanicsExactly`), as in `2020-01-01T00:00+1` followed by a euro sign
  (`Iso.EuroZonePanics`).
- An echoed clock of 0 is sent as 1, and a network that took no whole millisecond then yields a sample of
  65,535 ms (`Schedules.EchoMeasuresNetwork`, `Schedules.EchoCanWrap`).

## Model

| member | source | states |
|---|---|---|
| MessageQueues.MessageQueue.Push | src/link/src/state/queue.rs:83-88 | a message is appended exactly when both bounds allow it, otherwise nothing moves; the octet count stays the sum of the held lengths |
| MessageQueues.MessageQueue.PruneThrough | src/link/src/state/queue.rs:95-104 | drops the messages numbered up to `num` that are still held; the number of the newest does not move and the octet count stays exact |
| MessageQueues.MessageQueue.Drain | src/link/src/state/queue.rs:110-114 | hands out all held messages and keeps counting from the same number |
| MessageQueues.MessageQueue.ResetOrigin | src/link/src/state/queue.rs:136-139 | the held messages become the ones numbered from 1 |
| MessageQueues.MessageQueue.DiffFrom | src/link/src/state/queue.rs:146-157 | the diff frames exactly the held messages numbered above the ones `prev` has |
| MessageQueues.MessageQueue.ApplyDiff | src/link/src/state/queue.rs:164-171 | appends what the diff frames when it has room; a malformed or overflowing diff leaves messages, base and octet count as they were |
| MessageQueues.DecodeMessages | src/link/src/state/queue.rs:174-210 | the decoding loop accepts a diff exactly when some message list encodes to it, and returns that list |
| MessageQueues.AcceptsExactlyEncodings | src/link/src/state/queue.rs:174-210 | an octet string decodes if and only if it frames a message list |
| MessageQueues.EncodedMessagesParse | src/link/src/state/queue.rs:146-210 | decoding inverts encoding for every list that fits the 32-bit fields |
| MessageQueues.SmallDiffFramable | src/link/src/state/queue.rs:146-157 | a diff inside one datagram frames at most 318 messages, each of which costs four octets beside its own, so no length field can wrap |
| MessageQueues.SufficesExactly | src/link/src/state/queue.rs:117-132 | limits let an empty queue take every diff that fits one datagram if and only if they are at least 318 messages and 1269 octets |
| MessageQueues.DrainedHasRoom | src/link/src/state/queue.rs:117-132 | under the default limits a drained queue takes any diff that fits one datagram |
| RowGrids.DiffLaw | src/link/src/state/grid.rs:82-115 | for any two grids, applying `next.diff_from(prev)` to `prev` yields `next` if and only if `next` has at most 65535 rows and no row that differs is longer than its 32-bit length field can say |
| RowGrids.AcceptsExactlyEncodings | src/link/src/state/grid.rs:120-166 | a grid diff decodes if and only if it encodes a capped row count and a list of updates |
| RowGrids.TallGridRefused | src/link/src/state/grid.rs:120-166 | a grid whose row count, taken modulo 2^32 as the wire carries it, is above the cap is refused as malformed whatever the receiver holds |
| RowGrids.DecodeRows | src/link/src/state/grid.rs:120-166 | the decoding loop refuses and accepts exactly as the recursive reading of the format does, the row cap being checked first |
| RowGrids.RowGrid.SetRow | src/link/src/state/grid.rs:53-58 | one row is replaced, the grid growing by empty rows when needed; every other row stays |
| RowGrids.RowGrid.RebaseSteps | src/link/src/state/grid.rs:67-75 | the steps are the non-empty row prefixes of the grid, in order |
| RowGrids.RowGrid.DiffFrom | src/link/src/state/grid.rs:82-99 | the diff carries the row count and exactly the rows that differ |
| RowGrids.RowGrid.ApplyDiff | src/link/src/state/grid.rs:101-115 | everything is checked before anything is written: a refused diff leaves the grid as it was |
| Packets.InstructionCodec | src/link/src/packet.rs:94-143 | octets decode to an Instruction if and only if they are its encoding |
| Packets.PacketRoundTrip | src/link/src/packet.rs:163-191 | a packet encodes exactly when its diff fits; what is emitted fits one plaintext and decodes to the same packet |
| Packets.EncodeInto | src/link/src/packet.rs:94-106 | appends the encoding, or refuses an oversized diff |
| Packets.ElapsedMeasures | src/link/src/packet.rs:195-207 | the wrapping 16-bit clock difference is the real elapsed time if and only if that is below one wrap |
| Headers.HeaderCodec | src/link/src/header.rs:115-170 | any octets decode to a header if and only if there are at least 66 of them, they start with that header's signed octets, and the header is representable |
| SspStates.ApplyShows | src/link/src/transport/channel.rs:298-313 | over both kinds of state: a datagram-sized diff applied to any state that stands for its origin gives one that stands for its target, and is refused exactly when the target passes the receiver's bound |
| SspStates.DiffOfViews | src/link/src/state/queue.rs:146-157 | the diff between two retained states depends only on what they stand for, although acknowledged prefixes were released from them |
| Channels.Channel.Advance | src/link/src/transport/channel.rs:207-225 | a changed copy becomes the next numbered state, or the channel is left exactly as it was when the history is full or the state refuses |
| Channels.Channel.NextInstruction | src/link/src/transport/channel.rs:240-279 | the walk through the history computes the Instruction that `NeverWedged` and `LargestThatFits` are about |
| Channels.ChannelState.ReachStops | src/link/src/transport/channel.rs:249-257 | the walk ends on a state whose diff fits, in front of the first whose diff does not |
| Channels.Channel.NoteSent | src/link/src/transport/channel.rs:282-285 | the highest number sent never goes back and covers what was just sent; a change stays unsent exactly when it was and the Instruction stopped short of it |
| Channels.Channel.Apply | src/link/src/transport/channel.rs:298-313 | the acknowledgement is taken up and history released whatever becomes of the diff; the held state moves only when the diff starts at it |
| Channels.Channel.Acknowledge | src/link/src/transport/channel.rs:316-333 | moves to the acknowledged state and drops everything below it, or ignores a number it does not retain |
| Channels.Channel.ResetPeer | src/link/src/transport/channel.rs:76-141 | the loops that rebase the history compute the channel that `ResetKeepsPending` is about |
| Channels.Channel.DrainReceived | src/link/src/transport/mod.rs:206-213 | hands every received message upward and changes nothing else |
| Histories.NeverWedged | src/link/src/transport/channel.rs:240-279 | an in-order channel always has an Instruction: it fits one datagram, carries exactly the diff between two numbered states, starts at the assumed one, moves past it whenever anything is pending, and is the full difference when that fits |
| Histories.LargestThatFits | src/link/src/transport/channel.rs:249-257 | on channel 0 every state beyond the chosen one has a diff too large for a datagram |
| Histories.OfferExtends | src/link/src/transport/mod.rs:193-237 | an accepted message or grid becomes the next state of the history, every single step of which fits one datagram |
| Histories.RetainsExactly | src/link/src/transport/channel.rs:316-333 | the retained numbers are exactly `assumed_receiver_num ..= current_num`, without a gap |
| Histories.AcknowledgeMoves | src/link/src/transport/channel.rs:316-333 | an acknowledgement is taken up if and only if it names a state above the assumed one that was really made |
| Histories.HeardKeeps | src/link/src/transport/channel.rs:298-304 | whatever numbers a peer claims, hearing it keeps the history complete; a conforming claim keeps the queue's base at the assumed state |
| Delivery.ActKeeps | src/link/src/transport/channel.rs:207-333 | every push, send, delivery of any in-flight copy, loss and drain at an endpoint keeps the two-endpoint invariant |
| Delivery.TakeKeepsHalf | src/link/src/transport/channel.rs:207-333 | every such step at either end keeps the invariant of one direction, whatever the state of the other direction |
| Delivery.HeldMoves | src/link/src/transport/channel.rs:306-312 | a genuine diff that starts at the held state moves the receiver to exactly the state it was made for, unless the receiver has no room |
| Delivery.ExactlyOnceInOrder | src/link/src/transport/channel.rs:207-333 | over every run, drained plus held messages at the receiver are exactly the first `received_num` messages the sender accepted |
| Delivery.AcceptedIsNewest | src/link/src/transport/channel.rs:207-225 | the newest state of a queue channel stands for exactly the messages accepted along the run |
| Delivery.AckWindow | src/link/src/transport/channel.rs:298-333 | over every run `assumed_receiver_num` <= the peer's `received_num` <= `current_num`, and no genuine acknowledgement in flight names a state already dropped |
| Delivery.GridAgreement | src/link/src/transport/channel.rs:240-313 | over every run the receiver's grid is the sender's grid numbered `received_num`, never a mixture of two |
| Restart.ResetKeepsPending | src/link/src/transport/channel.rs:76-141 | from any in-order channel, a peer restart leaves an in-order channel whose history is one prefix a state of the unacknowledged messages, or of the rows of the grid (one empty grid as state 1 when it has none) |
| Restart.QueueRestarts | src/link/src/transport/channel.rs:76-141 | channel 0: the rebased, renumbered states stand for the prefixes of the messages above `assumed_receiver_num` |
| Restart.GridRestarts | src/link/src/state/grid.rs:67-75 | channel 1: the rebuilt states are the row prefixes of the current grid, each step of which fits one datagram |
| Overlaps.RebaseExactly | src/link/src/transport/mod.rs:380-393 | over every state between a restart and the survivor hearing of it: after the rebase the direction to the fresh peer is in order if and only if that peer holds the state the rebased history has under its number and nothing in flight says otherwise; the direction back if and only if no acknowledgement meant for its predecessor was taken up or is in flight |
| Overlaps.StepOverlaps | src/link/src/transport/mod.rs:276-427 | every offer, send, drain, loss and delivery to the fresh peer keeps what is known of the two ends until the survivor hears of the restart |
| Overlaps.StaleAckTaken | src/link/src/transport/channel.rs:316-333 | the fresh peer takes up an acknowledgement meant for its predecessor exactly when it names a state of its own |
| Overlaps.QueueUntouchedIsSafe | src/link/src/transport/channel.rs:76-112 | channel 0: with nothing acknowledged in either direction the old and new numbers coincide, and every run is safe |
| Overlaps.QueueSafeExactly | src/link/src/transport/channel.rs:76-112 | channel 0, nothing old in flight: safe if and only if no stale acknowledgement was taken up |
| Overlaps.GridSafeExactly | src/link/src/transport/channel.rs:113-131 | channel 1, nothing old in flight: safe if and only if moreover the grid that was taken is the row prefix of the newest one with as many rows as its number |
| Overlaps.RestartDelivers | src/link/src/transport/mod.rs:354-427 | over every run, a restart of the peer, every run until the survivor hears of it, and every run after a rebase that was safe towards the peer: the new receiver gets the unacknowledged messages, then those accepted later, once each and in order, whatever happens in the other direction |
| RestartHazards.StaleAckStarves | src/link/src/transport/channel.rs:298-333 | once the fresh peer took up a stale acknowledgement: over every run after the rebase the survivor stays at state 0 and is given nothing, if and only if no Instruction in flight to it starts at state 0, goes beyond it and can be taken |
| RestartHazards.StarvationHappens | src/link/src/transport/mod.rs:354-427 | from nothing, a run of two endpoints that ends so |
| RestartHazards.TearsAfterRebase | src/link/src/link/mod.rs:345-351 | a fresh peer that took a first row of one frame, and a survivor that then showed another: after the rebase the receiver completes a body nobody sent |
| RestartHazards.TornFrameHappens | src/link/src/link/mod.rs:345-351 | from nothing, for any two bodies of two chunks that differ in both (`ApartExample` gives two), a run that ends so |
| RestartHazards.ReportIgnored | src/link/src/transport/channel.rs:298-333 | a fresh peer that took a state numbered beyond the rebased history reports in vain, and the answer to it starts at a state it has left behind |
| DoubleDeliveries.StaleDiffTaken | src/link/src/transport/channel.rs:298-313 | an Instruction from before the rebase, at any queue that holds what the rebased history has under its number: taken if and only if it starts, in the old numbering, at that number and there is room; the queue then also has what it brings |
| DoubleDeliveries.TakenTwice | src/link/src/transport/channel.rs:76-112 | what it brings then was there already: it starts with the first of the messages that are held |
| DoubleDeliveries.DoubleDeliveryHappens | src/link/src/transport/mod.rs:354-427 | from nothing, a run that ends with two messages held twice and two others counted as received that never were |
| Convergence.ExchangeConverges | src/link/src/transport/channel.rs:240-333 | one loss-free exchange strictly reduces `current_num - received_num`, when that is not 0, if and only if the state `next_instruction` chose is one the drained receiver takes; it makes it 0 when moreover the whole difference fits one datagram |
| Convergence.ExchangeExactly | src/link/src/transport/channel.rs:240-333 | from any reachable state, an exchange takes the receiver to the next state sent to it exactly when it takes that state, and leaves it where it is otherwise |
| Convergence.ConvergesExactly | src/link/src/transport/channel.rs:240-333 | from any reachable state, as many exchanges as the receiver is behind bring it level, with every accepted message or the newest grid, if and only if every state sent on the way is one it takes |
| Convergence.Converges | src/link/src/transport/channel.rs:240-333 | under bounds that let every state pass, as many exchanges as the receiver is behind deliver every accepted message, or the newest grid |
| Overlaps.RestartConverges | src/link/src/transport/channel.rs:76-141 | the same after a safe rebase: the fresh receiver ends with exactly what was unacknowledged, or with the same grid, if and only if every state on the way passes |
| Convergence.DefaultsAreReceptive | src/link/src/state/queue.rs:33-42 | the default queue limits meet the bounds under which a drained receiver always has room |
| TallGrids.TallNeverArrives | src/link/src/state/grid.rs:120-166 | over every run the number the receiver is at is never that of a grid above 65535 rows |
| TallGrids.GrowIsAccepted | src/link/src/transport/mod.rs:222-237 | grids that each add 158 empty rows pass the one-datagram check and are accepted, all the way above the cap |
| TallGrids.TallGridStalls | src/link/src/transport/channel.rs:240-333 | after 415 of them no number of loss-free exchanges brings the receiver level |
| Sessions.Session.QueueMessage | src/link/src/transport/mod.rs:193-203 | a body of at most 1269 octets is offered to channel 0, a longer one is refused; nothing else of the session moves |
| Sessions.Session.SetScreen | src/link/src/transport/mod.rs:222-237 | a grid whose single step fits one datagram is offered to channel 1, otherwise it is refused without a trace |
| Sessions.Session.TakeMessages | src/link/src/transport/mod.rs:206-213 | hands out what channel 0 holds and owes an acknowledgement exactly when there was something |
| Sessions.Session.NextSendMs | src/link/src/transport/mod.rs:323-340 | computes the time that `EmitsWhenDue` is about |
| Sessions.Session.TakeReplyTs | src/link/src/transport/mod.rs:535-550 | the held clock is echoed once, advanced by how long it was held, never as 0; 0 when it is missing or too old |
| Sessions.Session.BuildOne | src/link/src/transport/mod.rs:482-527 | one datagram with its send and reply clocks, sequence, direction bit and epoch; a failed draw spends the held clock and nothing else |
| Sessions.Session.Outgoing | src/link/src/transport/mod.rs:276-316 | both due channels in alternating order, else one bare acknowledgement, else a heartbeat; nothing before the floor |
| Sessions.Session.HandleDatagram | src/link/src/transport/mod.rs:354-427 | a refused or retired datagram leaves no trace; any other is noted, follows the peer's epoch, and goes to the channel it names |
| Sessions.Session.HandleOctets | src/link/src/transport/mod.rs:354-366 | octets that do not decode as a header are refused and leave no trace; any others are handled as the datagram they are |
| Sessions.Session.FollowEpoch | src/link/src/transport/mod.rs:380-393 | a new epoch retires the old one (eight are remembered), rebases both channels and drops owed acknowledgements |
| Sessions.OutgoingNeverFails | src/link/src/transport/mod.rs:276-316 | given sequence numbers, `outgoing` of an in-order session succeeds, emits exactly what is wanted in datagrams of at most 1400 octets, and respects the floor |
| Sessions.HappenStaysInOrder | src/link/src/transport/mod.rs:193-427 | every queueing, drain, send, failed send and heard datagram of a conforming peer, restarts included, keeps both channels in order |
| Sessions.RebasedInOrder | src/link/src/transport/mod.rs:380-393 | following a new epoch leaves both channels in order in exactly the rebased histories of what was still unacknowledged; any other datagram leaves them in their own |
| Sessions.NoWedge | src/link/src/transport/mod.rs:276-316 | over every run of a session, peer restarts included: both histories are non-empty and gap-free, each next Instruction moves on when something is pending, and `outgoing` succeeds in datagrams that fit |
| Schedules.EmitsWhenDue | src/link/src/transport/mod.rs:276-340 | `outgoing` at `t >= now` emits if and only if the floor has passed and an acknowledgement is owed or `t >= next_send_ms(now)`; at the named time it always emits |
| Schedules.EmissionsApart | src/link/src/transport/mod.rs:438-463 | over every run, whatever the peer sends, any two calls that emit are at least 20 ms apart |
| Schedules.EveryDueChannelSends | src/link/src/transport/mod.rs:276-316 | a call that succeeds after the floor sends on every channel that was due, both if both were, and the other channel is first in line next time |
| Schedules.EchoMeasuresNetwork | src/link/src/transport/mod.rs:529-550 | an echoed clock makes its sender measure the time on the network without the time it was held, if and only if the echo would not have been the reserved 0; nudged to 1 it measures one millisecond less, and 65,535 ms when the network took none |
| Schedules.EchoCanWrap | src/link/src/transport/mod.rs:529-550 | that sample of 65,535 ms happens: a clock of 0 echoed at once over a network that took no time |
| EndToEnd.SessionsDeliver | src/link/src/transport/mod.rs:193-427 | two paired sessions over a network that loses, repeats, reorders, alters, reflects and forges datagrams: in both directions messages arrive once each and in order, and a seen grid is one that was set |
| EndToEnd.TickLinks | src/link/src/transport/mod.rs:276-316 | whatever a call of `outgoing` does, failing half-way included, each channel's network only sends its next Instruction, any number of times, and nothing else moves |
| EndToEnd.HearLinks | src/link/src/transport/mod.rs:354-427 | hearing a datagram the peer emitted is the delivery of one Instruction on one channel; hearing any other is nothing at all |
| EndToEnd.HeardIsApplied | src/link/src/transport/mod.rs:354-427 | a datagram the peer emitted is authentic and of the peer's epoch, and its Instruction is what its channel applies |
| EndToEnd.AuthenticIsEmitted | src/link/src/transport/mod.rs:354-376 | whatever headers and payloads the network brings, what passes the checks was emitted by the peer, unaltered |
| EndToEnd.NoForgeryEverCounts | src/link/src/transport/mod.rs:354-427 | after any run, anything the network brings that the peer did not emit leaves the whole system as it is |
| SessionTurns.SpeaksExactly | src/link/src/transport/mod.rs:276-316 | a call of `outgoing` sends on a channel if and only if the floor has passed and the channel is due, or no channel is and its acknowledgement is the first one owed, or on channel 0 the heartbeat is due and nothing is owed |
| SessionTurns.RelayedExactly | src/link/src/transport/mod.rs:276-427 | a tick at any time, all of it heard, relays the next Instruction of exactly those channels, clears what was owed on them, and makes the hearer owe an acknowledgement exactly for what moved it or tried to |
| SessionConvergences.RoundIsExchange | src/link/src/transport/mod.rs:276-340 | with nothing to say on channel 1, a round in which both sessions are ticked at the time `next_send_ms` names, and heard, is one loss-free exchange of channel 0 |
| SessionConvergences.QueuedArrives | src/link/src/transport/mod.rs:276-340 | after any hostile run that leaves channel 1 quiet at both ends, and without new events: as many such rounds as the receiver is behind bring everything queued across, if and only if every state on the way passes |
| OneWays.BothArrive | src/link/src/transport/mod.rs:276-340 | after any hostile run, with anything pending at one session and nothing but acknowledgements at the other: rounds in which the one is ticked once all it has is due, and the other twice when it names, bring across every message and the newest grid, each if and only if every state on the way passes |
| CrossedBacklogs.SaysOnlyThat | src/link/src/transport/mod.rs:438-463 | a session with an unsent state on one channel and nothing pending on the other sends on that channel alone whenever it sends, whatever it owes |
| CrossedBacklogs.CrossedBacklogsStall | src/link/src/transport/mod.rs:276-316 | two fresh sessions, more messages queued at one and a larger grid shown at the other than one datagram carries: over every run without new requests, at any times and with any deliveries, neither all the messages nor the newest grid ever arrives |
| CrossedBacklogs.CrossingHappens | src/link/src/transport/mod.rs:193-237 | four requests, under the default limits, that lead there |
| DirectRoute.MovesOnlyWhenFresh | src/link/src/link/direct.rs:103-111 | past the retired-epoch check a direct route moves if and only if the datagram is accepted, comes from elsewhere, and its sequence exceeds every one noted before |
| DirectRoute.RedeliveryNeverMoves | src/link/src/link/mod.rs:332-337 | an accepted datagram delivered again, from any address, never moves the route |
| DirectRoute.RouteFollowsFreshness | src/link/src/link/mod.rs:311-352 | after any run of any datagrams, from whatever peer and retired ones included, an accepted datagram delivered again leaves the route where it is, as long as its epoch was not retired since |
| DirectRoute.RetiredFollowsOldFlag | src/link/src/transport/mod.rs:377-402 | a datagram of a retired epoch moves the route if and only if it comes from elsewhere and the datagram before it had advanced the sequence |
| DirectRoute.ReplayMovesRoute | src/link/src/transport/mod.rs:377-402 | heard in one epoch, outdated by a fresher datagram of the next, and delivered again from elsewhere, a datagram moves a direct route there |
| DirectRoute.ReplayIsReachable | src/link/src/link/mod.rs:311-352 | such a run exists from every fresh session, for any two epochs and any address |
| DirectRoute.LearnInPlace | src/link/src/link/direct.rs:103-111 | a forwarded route never changes, a direct one only to the datagram's source |
| Fragments.Cut | src/sdk/src/bridge/link.rs:343-374 | a frame is cut into fragments that each fit one message, or refused when it needs more than 4096 |
| Fragments.Reassembly.Remove | src/sdk/src/bridge/link.rs:66-70 | drops one partial and keeps the shared counter equal to what is stored |
| Fragments.Reassembly.Reassemble | src/sdk/src/bridge/link.rs:245-306 | over the shared table each peer sees only its own single slot, at most one partial a peer exists, and both byte counters equal the stored sizes |
| Fragments.LostExactly | src/sdk/src/bridge/link.rs:245-306 | over every frame in progress, epoch and message: it is lost if and only if a fragment of its own id declares another count, or one of another id has index 0 or comes in another epoch |
| Fragments.KeptOtherwise | src/sdk/src/bridge/link.rs:245-306 | a frame that is not lost comes out, or keeps every chunk but the one its own fragment brings |
| Fragments.LossExamples | src/sdk/src/bridge/link.rs:245-306 | each way of losing a frame happens, and fragments like them that it survives |
| Fragments.Pump | src/sdk/src/bridge/link.rs:210-240 | for any interleaving of peers, each peer's share of the inbox is what its own messages alone would have produced |
| Fragments.FramePrefix | src/sdk/src/bridge/link.rs:245-306 | a frame's fragments in order yield its payload at the last one and nothing before, whatever other frame was left unfinished |
| Fragments.StreamReassembles | src/sdk/src/bridge/link.rs:245-306 | fed any prefix of a stream of frames, some abandoned half-way, a slot puts out exactly the payloads complete in it, in order |
| Fragments.OnlySentFrames | src/sdk/src/bridge/link.rs:245-306 | for genuine fragments in any order, repeated and across epochs, whatever comes out is the full payload of one sent frame |
| Chunks.ChunksJoin | src/sdk/src/bridge/link.rs:343-356 | the chunks of a payload joined again are the payload, an empty one included |
| ScreenFrames.CompleteScreenFrame | src/link/src/link/mod.rs:423-441 | the gathering loop returns the joined bodies exactly when every row carries the magic, the row count and its own index |
| ScreenFrames.PrefixCompletes | src/link/src/link/mod.rs:423-441 | the rows of a frame complete to its body, any proper prefix of them to nothing |
| ScreenFrames.FirstRowFits | src/link/src/transport/mod.rs:222-231 | replacing any grid by a frame's first row passes the one-datagram check |
| ScreenFrames.NextRowFits | src/link/src/transport/mod.rs:222-231 | every later prefix passes it too, meeting the bound exactly when the chunk is full |
| ScreenFrames.SendScreenFrame | src/link/src/link/types.rs:223-252 | with the channel to itself, every prefix becomes a state and the last is the whole frame; the only possible refusal is a full history, and it leaves the prefixes sent so far |
| ScreenFrames.OthersKeepGrid | src/link/src/link/types.rs:223-252 | no send, report, loss or rebase in between changes the grid being shown |
| ScreenFrames.NextPrefixPasses | src/link/src/link/types.rs:223-252 | so whatever happens on the network between two prefixes, the next is refused only by a full history |
| ScreenFrames.NoTornFrames | src/link/src/link/mod.rs:345-351 | over every run whose grids come from `send_screen_frame`, whatever is sent the other way, a grid at the receiver completes to nothing or to a body some caller sent |
| ScreenFrames.NoTornFramesAfterRestart | src/link/src/transport/mod.rs:380-393 | after a peer restarts its grid is a part of one frame until the survivor hears of it, and over every run after a rebase that was safe towards it; `RestartHazards.TornFrameHappens` is the other case |
| ScreenFrames.FrameArrives | src/link/src/link/mod.rs:423-441 | once a whole frame is the newest grid and every state on the way passes, enough loss-free exchanges complete to its body |
| FrameDelivery.FramesInOrder | src/sdk/src/bridge/link.rs:210-306 | over every lossy run, reassembling what was drained gives the frames complete in it, whole, in order and once each |
| FrameDelivery.EveryFrameArrives | src/sdk/src/bridge/link.rs:210-306 | once the network stops losing, every frame sent is delivered when every state on the way passes |
| FrameDelivery.FramesThroughSessions | src/sdk/src/bridge/link.rs:210-306 | bridge frames through two whole sessions over a network that also alters and forges come out whole and in order |
| FrameDelivery.ScreensThroughSessions | src/link/src/link/mod.rs:423-441 | screen frames through two whole sessions come out whole or not at all |
| SequenceNumbers.ReservedSeq.Open | src/link/src/keys/seq.rs:94-104 | opening treats everything below the recorded reservation as spent and reserves the next block, whichever file a failed write leaves |
| SequenceNumbers.ReservedSeq.ReserveBlock | src/link/src/keys/seq.rs:112-118 | the block is usable only after the write succeeded |
| SequenceNumbers.ReservedSeq.NextNumber | src/link/src/keys/seq.rs:122-135 | hands out the next number of the reserved block, or refuses when a write fails or the space is used up |
| SequenceNumbers.NeverRewinds | src/link/src/keys/seq.rs:94-136 | across opens, failed writes and crashes at any point, issued numbers strictly increase inside 1 to 2^63-2 |
| SequenceNumbers.SkipsAtMostABlockPerCrash | src/link/src/keys/seq.rs:94-136 | between two numbers handed out in a row lies at most one block for every open between them, and nothing when there was none |
| SequenceNumbers.NoncesNeverRepeat | src/link/src/crypto.rs:93-97 | over any two runs of the ends of a pair, with the direction bit set on one of them, no AEAD nonce is used twice |
| SequenceNumbers.SettingTheBitAdds | src/link/src/keys/types.rs:59-64 | no sequence handed out has the direction bit, so or-ing it in keeps sequences apart |
| SequenceNumbers.NonceInjective | src/link/src/crypto.rs:93-97 | different 64-bit sequences make different nonces |
| Forwarder.AdmitRefines | src/sdk/examples/mock_link_forwarder.rs:80-104 | the 64-bit bitmap decides exactly as a set of admitted sequences would, with a window of 63, and goes on marking that set |
| Forwarder.WindowFits | src/sdk/examples/mock_link_forwarder.rs:80-104 | the bitmap stays inside 64 bits |
| Forwarder.NodeEntry.Admit | src/sdk/examples/mock_link_forwarder.rs:80-104 | the shifting and masking code computes the window that `AdmitRefines` is about |
| Forwarder.ForwarderState.RouteDatagram | src/sdk/examples/mock_link_forwarder.rs:128-178 | the rules in order, the window moving even when a later rule drops the datagram |
| Forwarder.ForwardsOnce | src/sdk/examples/mock_link_forwarder.rs:128-178 | over any arrivals from any addresses no (source, sequence) is forwarded twice, and each heard node is bound to where its highest admitted sequence came from |
| Forwarder.RouteStaysInTeam | src/sdk/examples/mock_link_forwarder.rs:128-178 | a datagram only goes to the bound address of a known node in its sender's team, and exactly the cross-team drops are counted |
| Words.ShiftedBit | src/sdk/examples/mock_link_forwarder.rs:80-104 | a left shift of a 64-bit word moves each bit up and loses those that leave it |
| Civil.CalendarBijection | src/sdk/src/clock.rs:220-250 | `civil_from_days` and `days_from_civil` are mutual inverses between all integers and all valid dates, and the next integer is the next calendar day |
| Civil.NextDayCounts | src/sdk/src/clock.rs:220-228 | the next calendar day of any valid date, found by the calendar's own rules, counts one more |
| Civil.DateRecovered | src/sdk/src/clock.rs:234-250 | every valid date is recovered from its day number |
| Civil.YearLength | src/sdk/src/clock.rs:198-228 | consecutive years start 366 days apart exactly when the February between them has 29 days |
| Iso.RoundTrip | src/sdk/src/clock.rs:50-140 | for every 64-bit instant, what is printed reads back as that instant if and only if its year is 0 to 292,000,000, and is refused otherwise |
| Iso.OnlyFieldsRefuse | src/sdk/src/clock.rs:126-140 | over every text, once date, zone and time are read the answer is the instant they name: the checked arithmetic refuses nothing, and the only panic is the one of the zone |
| Iso.PanicsExactly | src/sdk/src/clock.rs:148-172 | over every text the parser panics if and only if the date is read and the zone behind the last sign has four octets, no colon, and a character across its middle |
| Iso.NoMiddlePanics | src/sdk/src/clock.rs:148-172 | every readable date with such a zone behind a time is a text that panics |
| Iso.EuroZonePanics | src/sdk/src/clock.rs:148-172 | a zone of one digit and a euro sign is one, behind any printable date |
| Iso.NeverOverflows | src/sdk/src/clock.rs:132-140 | inside the year guard and the field ranges no intermediate value leaves 64 bits |
| Iso.ParseSeconds | src/sdk/src/clock.rs:178-195 | the digit loop reads the first three fractional digits, padding short fractions and truncating long ones |
| Iso.SplitThree | src/sdk/src/clock.rs:79-82 | three fields joined by a separator are cut where they were joined |
| BitPacking.UnpackPack | src/link/src/keys/crockford.rs:30-80 | packing bits into words of any width and unpacking them gives the bits back |
| BitPacking.PackOneMore | src/link/src/keys/crockford.rs:69-79 | or-ing one more bit into its place is packing a string one bit longer |
| Crockford.EncodeBits | src/link/src/keys/crockford.rs:30-49 | the chunk loop spells the five-bit groups of the first `bits` bits, the last one padded with zeros |
| Crockford.DecodeBits | src/link/src/keys/crockford.rs:58-82 | the first character without a value is the error, then the count is checked, then the bits are packed |
| Crockford.RoundTrip | src/link/src/keys/crockford.rs:30-82 | for every number of bits, decoding what was encoded gives those bits back and zeros after them |
| Crockford.DecodingFolds | src/link/src/keys/crockford.rs:58-109 | texts that fold alike decode alike, but for the character an error names |
| Crockford.SeparatorsIgnored | src/link/src/keys/crockford.rs:61-64 | inserting a hyphen or whitespace anywhere does not change what a text folds to |
| Crockford.AlikeIgnored | src/link/src/keys/crockford.rs:98-109 | replacing a character by one that folds alike does not either |
| Crockford.Confusables | src/link/src/keys/crockford.rs:98-109 | O reads as 0, I and L as 1, in either case; U reads as nothing |
| Crockford.CaseIgnored | src/link/src/keys/crockford.rs:98-104 | a lower-case letter folds to what its upper-case form does |
| Crockford.OneSpelling | src/link/src/keys/crockford.rs:30-82 | with whole characters a text decodes to given octets if and only if, folded, it is their encoding |
| Crockford.TwoSpellings | src/link/src/keys/crockford.rs:30-82 | with one padding bit exactly two folded texts do: the encoding and the one that sets that bit |
| Crockford.GroupText | src/link/src/keys/crockford.rs:85-94 | the loop writes the display form that `GroupedShape` and `GroupedFolds` are about |
| Crockford.GroupedShape | src/link/src/keys/crockford.rs:85-94 | groups of four: every fifth character of the display is a hyphen and the others are the text's own, in order |
| Crockford.GroupedFolds | src/link/src/keys/crockford.rs:85-94 | the display form folds to what the bare text folds to |
| PairKeys.EncodeCompact | src/link/src/keys/pair_key.rs:90-99 | fills the key and its 12-bit checksum into 140 bits |
| PairKeys.Decode | src/link/src/keys/pair_key.rs:106-115 | decodes, or reports the codec's error, or a checksum that does not match |
| PairKeys.DecodesExactly | src/link/src/keys/pair_key.rs:90-115 | for every hash function, a text decodes to a key if and only if, folded, it spells that key's own 28 characters |
| PairKeys.DisplayDecodes | src/link/src/keys/pair_key.rs:85-115 | a pair key decodes from its display form |
| PairKeys.RefusalsExplained | src/link/src/keys/pair_key.rs:106-115 | a refusal names a bad character exactly when one is left after folding, and a wrong length exactly when it is not 28 |
| HostKeys.EncodeCompact | src/link/src/keys/host_key.rs:123-133 | fills version, both node ids, pair key, port and checksum into 424 bits |
| HostKeys.Decode | src/link/src/keys/host_key.rs:143-170 | prefix, then codec, then checksum, then version are checked in that order |
| HostKeys.DecodesExactly | src/link/src/keys/host_key.rs:123-170 | for every hash function, a text decodes to a host key if and only if it has the prefix and, folded, is one of the two spellings of that key's encoding |
| HostKeys.DisplayDecodes | src/link/src/keys/host_key.rs:118-170 | a host key decodes from its display form |
| HostKeys.RefusalsExplained | src/link/src/keys/host_key.rs:143-150 | the prefix error is exactly a text that does not look like a host key; a wrong length exactly one that is not 85 after folding |

## Left out

- Cryptography: the AEAD is ideal (a payload opens exactly when it was sealed under that key, sequence and header), the forwarder's tag check and SHA-256 are arbitrary functions. Key expansion, tag computation and random minting are not modelled.
- Sockets, async tasks, locks, real files and clocks: time is a parameter, the identity file is one durable cell that a failed write leaves old or new, and one process holds it at a time.
- The round-trip estimator: `rto` is any number and a sample replaces it by any number. Liveness and status reports are left out.
- Counters that the source keeps in `u64` are unbounded here. `Delivery`, `Overlap`, `Convergence` and `Sessions.NoWedge` therefore say nothing of 2^64 states; `EndToEnd` bounds its runs by 2^64 steps, so that every number fits its field, and the codecs and the sequence source model the 64-bit width.
- Delivery.ExactlyOnceInOrder: covers one epoch at each end, and so do the other whole-run delivery results, because a restart renumbers states without a new local epoch. Restarts are covered by `Overlaps`, from an empty network at the restart itself: what was already in flight then, and a second restart before the survivor hears of the first, are not.
- Sessions.NoWedge: takes the peer as conforming (`throwaway_num == ack_num`, which `instruction_with` always sends), as rebasing relies on it; grids offered to a session have fewer than 2^32 rows, the width of the wire's row count.
- Convergence.ConvergesExactly: an exchange drains the receiver, relays its report and relays the answer; that a network becomes loss-free, and that datagrams are sent at all, is assumed there. `SessionConvergences.QueuedArrives` (nothing to say on channel 1) and `OneWays.BothArrive` (one side only acknowledges) take the sending from the schedule; `CrossedBacklogs` is what can happen in between. The remaining mixtures, where it depends on the retransmission timeout, are not decided.
- EndToEnd.SessionsDeliver: two paired sessions have different node ids, so a reflected datagram is misaddressed; a payload is opened only under the pair's key.
- Sessions.Session.HandleOctets: what a ciphertext was sealed as is a parameter, as opening it is ideal.
- ScreenFrames.NoTornFrames: needs every frame to have fewer than 2^32 chunks, the width of the count field.
- Fragments.Pump: the inbox's capacity and waiting for space are left out, and so are the names of senders and the lossy UTF-8 decoding.
- Channels hold their states as values (the source clones them); the queue and the grid that are updated in place are classes proved against the same functions.
- How the driver shares one socket and one sequence source among many peers, and its bounded queue to the application.
- A bound on channel 1's history after a restart: rebuilding a grid row by row can exceed the limit that `advance` checks.
- The in-memory sequence source, error texts, access policy, configuration, user interface and the other crates of the repository.
