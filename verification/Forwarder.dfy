/** The blind forwarder: replay windows, address bindings and team boundaries. */
module Forwarder {
  import opened Bytes
  import opened Protocol
  import opened Wrappers
  import opened Words
  import opened Headers

  // ---------- the replay window ----------

  datatype Admission = Advance | Accept | Refuse

  /** Bit `i` of the word `seen` marks sequence `highest - 1 - i`. */
  datatype Window = Window(highest: nat, seen: nat) {
    function Admit(seq': nat): (Window, Admission) {
      if seq' > highest then
        var shift := seq' - highest;
        (Window(seq', if shift >= 64 then 0 else Or(ShiftLeft(seen, shift), ShiftLeft(1, shift - 1))), Advance)
      else
        var behind := highest - seq';
        if behind == 0 || behind >= 64 then (this, Refuse)
        else
          var bit := ShiftLeft(1, behind - 1);
          if And(seen, bit) != 0 then (this, Refuse) else (Window(highest, Or(seen, bit)), Accept)
    }
  }

  const NEW_WINDOW := Window(0, 0)

  /** Admitted sequences, all at or below the highest, are exactly what the bitmap says of the last 63. */
  ghost predicate Marks(w: Window, admitted: set<nat>) {
    && w.highest in admitted
    && (forall s | s in admitted :: s <= w.highest)
    && (forall d: nat | 1 <= d < 64 && d <= w.highest :: MarksAt(w, admitted, d))
  }

  ghost predicate MarksAt(w: Window, admitted: set<nat>, d: nat)
    requires 1 <= d <= w.highest
  {
    Bit(w.seen, d - 1) <==> w.highest - d in admitted
  }

  /** The rule, told without a bitmap. */
  ghost function Verdict(highest: nat, admitted: set<nat>, seq': nat): Admission {
    if seq' > highest then Advance
    else if highest - seq' >= 64 || seq' in admitted then Refuse
    else Accept
  }

  lemma AdvanceMarks(w: Window, admitted: set<nat>, seq': nat, d: nat)
    requires Marks(w, admitted) && seq' > w.highest && 1 <= d < 64 && d <= seq'
    ensures MarksAt(w.Admit(seq').0, admitted + {seq'}, d)
  {
    var shift := seq' - w.highest;
    if shift >= 64 {
      ZeroBit(d - 1);
    } else {
      OrBit(ShiftLeft(w.seen, shift), ShiftLeft(1, shift - 1), d - 1);
      ShiftedBit(w.seen, shift, d - 1);
      ShiftedOne(shift - 1);
      PowerBit(shift - 1, d - 1);
      if d > shift {
        assert MarksAt(w, admitted, d - shift);
      }
    }
  }

  /** The bitmap refines the set: its verdict is the rule's, and it goes on marking what was admitted. */
  lemma AdmitRefines(w: Window, admitted: set<nat>, seq': nat)
    requires Marks(w, admitted)
    ensures var (w', verdict) := w.Admit(seq');
            && verdict == Verdict(w.highest, admitted, seq')
            && Marks(w', if verdict.Refuse? then admitted else admitted + {seq'})
  {
    var (w', verdict) := w.Admit(seq');
    var admitted' := admitted + {seq'};
    if seq' > w.highest {
      forall d: nat | 1 <= d < 64 && d <= seq'
        ensures MarksAt(w', admitted', d)
      {
        AdvanceMarks(w, admitted, seq', d);
      }
    } else if 0 < w.highest - seq' < 64 {
      var behind := w.highest - seq';
      assert MarksAt(w, admitted, behind);
      ShiftedOne(behind - 1);
      AndPower(w.seen, behind - 1);
      if verdict.Accept? {
        forall d: nat | 1 <= d < 64 && d <= w.highest
          ensures MarksAt(w', admitted', d)
        {
          assert MarksAt(w, admitted, d);
          OrBit(w.seen, Pow2(behind - 1), d - 1);
          PowerBit(behind - 1, d - 1);
        }
      }
    }
  }

  /** The bitmap stays a 64-bit word. */
  lemma WindowFits(w: Window, seq': nat)
    requires w.seen < U64_SPAN
    ensures w.Admit(seq').0.seen < U64_SPAN
  {
    WordPower();
    var shift, behind := seq' - w.highest, w.highest - seq';
    if 0 < shift < 64 {
      ShiftedOne(shift - 1);
      OrFits(ShiftLeft(w.seen, shift), ShiftLeft(1, shift - 1), 64);
    } else if 0 < behind < 64 {
      ShiftedOne(behind - 1);
      OrFits(w.seen, ShiftLeft(1, behind - 1), 64);
    }
  }

  // ---------- routing ----------

  type ForwarderKey = Bytes

  datatype Node = Node(key: ForwarderKey, team: string, binding: Option<Address>, window: Window)

  datatype Table = Table(nodes: map<NodeId, Node>, crossTeam: nat)

  datatype Drop = Oversized | BadHeader | UnknownSource | BadTag | Replayed | UnknownDestination | CrossTeam | Unbound

  /** Rules 1 to 3: the header and node a datagram authenticates as, or why it is dropped. */
  function Authenticate(t: Table, datagram: Bytes, verify: (Bytes, ForwarderKey) -> bool): Result<OuterHeader, Drop> {
    if |datagram| > MAX_DATAGRAM then Err(Oversized)
    else
      match DecodeHeader(datagram)
      case None => Err(BadHeader)
      case Some(header) =>
        if header.src !in t.nodes then Err(UnknownSource)
        else if !verify(datagram, t.nodes[header.src].key) then Err(BadTag)
        else Ok(header)
  }

  /** Rules 4 and 5: admit the sequence, rebinding the source only when it advances. */
  function Admitted(n: Node, seq': nat, from: Address): (Node, Admission) {
    var (window, verdict) := n.window.Admit(seq');
    (n.(window := window, binding := if verdict.Advance? then Some(from) else n.binding), verdict)
  }

  /** Rules 6 and 7: a bound node of the same team, or a drop. */
  function Destination(t: Table, header: OuterHeader): (Table, Result<Address, Drop>)
    requires header.src in t.nodes
  {
    if header.dst !in t.nodes then (t, Err(UnknownDestination))
    else if t.nodes[header.dst].team != t.nodes[header.src].team then
      (t.(crossTeam := t.crossTeam + 1), Err(CrossTeam))
    else
      match t.nodes[header.dst].binding
      case None => (t, Err(Unbound))
      case Some(address) => (t, Ok(address))
  }

  function Route(t: Table, datagram: Bytes, from: Address, verify: (Bytes, ForwarderKey) -> bool)
    : (Table, Result<Address, Drop>)
  {
    match Authenticate(t, datagram, verify)
    case Err(drop) => (t, Err(drop))
    case Ok(header) =>
      var (node, verdict) := Admitted(t.nodes[header.src], header.seq', from);
      if verdict.Refuse? then (t.(nodes := t.nodes[header.src := node]), Err(Replayed))
      else Destination(t.(nodes := t.nodes[header.src := node]), header)
  }

  // ---------- runs ----------

  datatype Arrival = Arrival(datagram: Bytes, from: Address)

  /** One admitted datagram: who sent it, under which sequence, from where. */
  datatype Entry = Entry(src: NodeId, seq': nat, from: Address)

  /** The table after a run, the log of what was admitted, and the log entries that were forwarded. */
  datatype Trace = Trace(table: Table, log: seq<Entry>, forwarded: set<nat>)

  function EntryOf(t: Table, a: Arrival, verify: (Bytes, ForwarderKey) -> bool): Option<Entry> {
    match Authenticate(t, a.datagram, verify)
    case Err(_) => None
    case Ok(header) =>
      if Admitted(t.nodes[header.src], header.seq', a.from).1.Refuse? then None
      else Some(Entry(header.src, header.seq', a.from))
  }

  function Arrive(s: Trace, a: Arrival, verify: (Bytes, ForwarderKey) -> bool): Trace {
    var (t, result) := Route(s.table, a.datagram, a.from, verify);
    match EntryOf(s.table, a, verify)
    case None => s.(table := t)
    case Some(entry) => Trace(t, s.log + [entry], if result.Ok? then s.forwarded + {|s.log|} else s.forwarded)
  }

  function ArriveAll(s: Trace, arrivals: seq<Arrival>, verify: (Bytes, ForwarderKey) -> bool): Trace
    decreases arrivals
  {
    if arrivals == [] then s else ArriveAll(Arrive(s, arrivals[0], verify), arrivals[1..], verify)
  }

  ghost function SeqsOf(log: seq<Entry>, id: NodeId): set<nat> {
    {0} + set k | 0 <= k < |log| && log[k].src == id :: log[k].seq'
  }

  /** One node agrees with the log: its window marks it, its binding is where the highest came from. */
  ghost predicate Agrees(n: Node, log: seq<Entry>, id: NodeId) {
    && Marks(n.window, SeqsOf(log, id))
    && (n.window.highest == 0 ==> n.binding == None)
    && (forall k | 0 <= k < |log| && log[k].src == id && log[k].seq' == n.window.highest ::
          n.binding == Some(log[k].from))
  }

  ghost predicate NoRepeats(log: seq<Entry>) {
    forall i, j | 0 <= i < j < |log| :: log[i].src != log[j].src || log[i].seq' != log[j].seq'
  }

  ghost predicate Sound(s: Trace) {
    && NoRepeats(s.log)
    && (forall k | k in s.forwarded :: k < |s.log|)
    && (forall k | 0 <= k < |s.log| :: s.log[k].src in s.table.nodes && s.log[k].seq' > 0)
    && (forall id | id in s.table.nodes :: Agrees(s.table.nodes[id], s.log, id))
  }

  lemma SeqsGrow(log: seq<Entry>, entry: Entry, id: NodeId)
    ensures SeqsOf(log + [entry], id) == if entry.src == id then SeqsOf(log, id) + {entry.seq'} else SeqsOf(log, id)
  {
    var log' := log + [entry];
    forall s
      ensures s in SeqsOf(log', id) <==> s in SeqsOf(log, id) || (entry.src == id && s == entry.seq')
    {
      if s in SeqsOf(log, id) && s != 0 {
        var k :| 0 <= k < |log| && log[k].src == id && log[k].seq' == s;
        assert log'[k] == log[k];
      }
      if entry.src == id && s == entry.seq' {
        assert log'[|log|] == entry;
      }
    }
  }

  lemma AdmittedAgrees(n: Node, log: seq<Entry>, entry: Entry)
    requires Agrees(n, log, entry.src)
    ensures var (n', verdict) := Admitted(n, entry.seq', entry.from);
            if verdict.Refuse? then n' == n
            else Agrees(n', log + [entry], entry.src) && entry.seq' !in SeqsOf(log, entry.src)
  {
    AdmitRefines(n.window, SeqsOf(log, entry.src), entry.seq');
    SeqsGrow(log, entry, entry.src);
    var (n', verdict) := Admitted(n, entry.seq', entry.from);
    if !verdict.Refuse? {
      forall k | 0 <= k < |log| && log[k].src == entry.src
        ensures log[k].seq' in SeqsOf(log, entry.src)
      {
      }
    }
  }

  lemma OthersAgree(n: Node, log: seq<Entry>, entry: Entry, id: NodeId)
    requires Agrees(n, log, id) && entry.src != id
    ensures Agrees(n, log + [entry], id)
  {
    SeqsGrow(log, entry, id);
  }

  lemma StaysUnrepeated(log: seq<Entry>, entry: Entry)
    requires NoRepeats(log) && entry.seq' !in SeqsOf(log, entry.src)
    ensures NoRepeats(log + [entry]) && entry.seq' > 0
  {
    forall k | 0 <= k < |log| && log[k].src == entry.src
      ensures log[k].seq' in SeqsOf(log, entry.src)
    {
    }
  }

  lemma ArriveKeepsSound(s: Trace, a: Arrival, verify: (Bytes, ForwarderKey) -> bool)
    requires Sound(s)
    ensures Sound(Arrive(s, a, verify))
  {
    hide Agrees, NoRepeats, Window.Admit;
    var s' := Arrive(s, a, verify);
    match Authenticate(s.table, a.datagram, verify)
    case Err(_) =>
    case Ok(header) =>
      var entry := Entry(header.src, header.seq', a.from);
      AdmittedAgrees(s.table.nodes[header.src], s.log, entry);
      if EntryOf(s.table, a, verify).Some? {
        StaysUnrepeated(s.log, entry);
        forall id | id in s'.table.nodes
          ensures Agrees(s'.table.nodes[id], s'.log, id)
        {
          if id != entry.src {
            OthersAgree(s.table.nodes[id], s.log, entry, id);
          }
        }
      }
  }

  /** Nodes as enrolled: nothing heard yet. */
  ghost predicate Enrolled(t: Table) {
    forall id | id in t.nodes :: t.nodes[id].binding == None && t.nodes[id].window == NEW_WINDOW
  }

  lemma EnrolledIsSound(t: Table)
    requires Enrolled(t)
    ensures Sound(Trace(t, [], {}))
  {
    assert SeqsOf([], []) == {0};
  }

  lemma {:induction false} RunIsSound(s: Trace, arrivals: seq<Arrival>, verify: (Bytes, ForwarderKey) -> bool)
    requires Sound(s)
    ensures Sound(ArriveAll(s, arrivals, verify))
    decreases arrivals
  {
    if arrivals != [] {
      hide Sound;
      ArriveKeepsSound(s, arrivals[0], verify);
      RunIsSound(Arrive(s, arrivals[0], verify), arrivals[1..], verify);
    }
  }

  /**
   * Over any arrivals, from any addresses: no (source, sequence) is forwarded twice, and
   * every node that was heard is bound to where its highest admitted sequence came from.
   */
  lemma ForwardsOnce(t: Table, arrivals: seq<Arrival>, verify: (Bytes, ForwarderKey) -> bool)
    requires Enrolled(t)
    ensures var s := ArriveAll(Trace(t, [], {}), arrivals, verify);
            && (forall i, j | i in s.forwarded && j in s.forwarded && i != j ::
                  i < |s.log| && j < |s.log| && (s.log[i].src != s.log[j].src || s.log[i].seq' != s.log[j].seq'))
            && (forall id | id in s.table.nodes :: BoundToHighest(s, id))
  {
    EnrolledIsSound(t);
    RunIsSound(Trace(t, [], {}), arrivals, verify);
    hide ArriveAll;
    var s := ArriveAll(Trace(t, [], {}), arrivals, verify);
    forall id | id in s.table.nodes
      ensures BoundToHighest(s, id)
    {
      assert Agrees(s.table.nodes[id], s.log, id);
    }
  }

  ghost predicate BoundToHighest(s: Trace, id: NodeId)
    requires id in s.table.nodes
  {
    var n := s.table.nodes[id];
    if n.window.highest == 0 then n.binding == None
    else exists k | 0 <= k < |s.log| ::
           s.log[k].src == id && s.log[k].seq' == n.window.highest && n.binding == Some(s.log[k].from)
  }

  /** A datagram only ever goes to the bound address of a node in its sender's team. */
  lemma RouteStaysInTeam(t: Table, datagram: Bytes, from: Address, verify: (Bytes, ForwarderKey) -> bool)
    ensures var (t', result) := Route(t, datagram, from, verify);
            && t'.nodes.Keys == t.nodes.Keys
            && (forall id | id in t.nodes :: t'.nodes[id].team == t.nodes[id].team && t'.nodes[id].key == t.nodes[id].key)
            && (result.Ok? ==>
                  && DecodeHeader(datagram).Some?
                  && var h := DecodeHeader(datagram).value;
                  && h.src in t.nodes && h.dst in t.nodes
                  && t.nodes[h.src].team == t.nodes[h.dst].team
                  && t'.nodes[h.dst].binding == Some(result.value))
            && (t'.crossTeam > t.crossTeam <==> result == Err(CrossTeam))
  {
  }

  // ---------- the forwarder as the program keeps it ----------

  class NodeEntry {
    const key: ForwarderKey
    const team: string
    var binding: Option<Address>
    var highestSeq: nat
    var seen: nat

    function Value(): Node
      reads this
    {
      Node(key, team, binding, Window(highestSeq, seen))
    }

    constructor (key: ForwarderKey, team: string)
      ensures Value() == Node(key, team, None, NEW_WINDOW)
    {
      this.key, this.team := key, team;
      binding, highestSeq, seen := None, 0, 0;
    }

    /** Decide on a sequence and mark it as seen when it is let through. */
    method Admit(seq': nat) returns (r: Admission)
      modifies this`highestSeq, this`seen
      ensures (Window(highestSeq, seen), r) == old(Value()).window.Admit(seq')
    {
      if seq' > highestSeq {
        var shift := seq' - highestSeq;
        seen := if shift >= 64 then 0 else Or(ShiftLeft(seen, shift), ShiftLeft(1, shift - 1));
        highestSeq := seq';
        return Advance;
      }
      var behind := highestSeq - seq';
      if behind == 0 || behind >= 64 {
        return Refuse;
      }
      var bit := ShiftLeft(1, behind - 1);
      if And(seen, bit) != 0 {
        return Refuse;
      }
      seen := Or(seen, bit);
      r := Accept;
    }
  }

  class ForwarderState {
    var nodes: map<NodeId, NodeEntry>
    var crossTeam: nat

    /** No two ids share a node object. */
    ghost predicate Valid()
      reads this
    {
      forall i, j | i in nodes && j in nodes && nodes[i] == nodes[j] :: i == j
    }

    ghost function Value(): Table
      reads this, nodes.Values
    {
      Table(map id | id in nodes :: nodes[id].Value(), crossTeam)
    }

    constructor (nodes: map<NodeId, NodeEntry>)
      requires forall i, j | i in nodes && j in nodes && nodes[i] == nodes[j] :: i == j
      ensures Valid() && this.nodes == nodes && crossTeam == 0
    {
      this.nodes, this.crossTeam := nodes, 0;
    }

    /** Rules 4 and 5 on one node of the table. */
    method AdmitFrom(id: NodeId, seq': nat, from: Address) returns (r: Admission)
      requires Valid() && id in nodes
      modifies nodes[id]
      ensures (nodes[id].Value(), r) == Admitted(old(nodes[id].Value()), seq', from)
    {
      r := nodes[id].Admit(seq');
      if r.Advance? {
        nodes[id].binding := Some(from);
      }
    }

    /** `route`: the rules in order; the window moves even when a later rule drops the datagram. */
    method RouteDatagram(datagram: Bytes, from: Address, verify: (Bytes, ForwarderKey) -> bool)
      returns (r: Result<Address, Drop>)
      requires Valid()
      modifies this`crossTeam, nodes.Values
      ensures Valid()
      ensures (Value(), r) == Route(old(Value()), datagram, from, verify)
    {
      hide Admitted;
      if |datagram| > MAX_DATAGRAM {
        return Err(Oversized);
      }
      var decoded := DecodeHeader(datagram);
      if decoded.None? {
        return Err(BadHeader);
      }
      var header := decoded.value;
      if header.src !in nodes {
        return Err(UnknownSource);
      }
      if !verify(datagram, nodes[header.src].key) {
        return Err(BadTag);
      }
      ghost var before := Value();
      var verdict := AdmitFrom(header.src, header.seq', from);
      assert Value().nodes == before.nodes[header.src := Admitted(before.nodes[header.src], header.seq', from).0];
      if verdict.Refuse? {
        return Err(Replayed);
      }
      r := Deliver(header);
    }

    /** Rules 6 and 7. */
    method Deliver(header: OuterHeader) returns (r: Result<Address, Drop>)
      requires Valid() && header.src in nodes
      modifies this`crossTeam
      ensures Valid()
      ensures (Value(), r) == Destination(old(Value()), header)
    {
      if header.dst !in nodes {
        return Err(UnknownDestination);
      }
      var destination := nodes[header.dst];
      if destination.team != nodes[header.src].team {
        crossTeam := crossTeam + 1;
        assert Value().nodes == old(Value()).nodes;
        return Err(CrossTeam);
      }
      match destination.binding
      case None => r := Err(Unbound);
      case Some(address) => r := Ok(address);
    }
  }
}
