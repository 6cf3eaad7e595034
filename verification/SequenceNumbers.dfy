/** Sequence numbers reserved on disk ahead of use, and the AEAD nonces made from them. */
module SequenceNumbers {
  import opened Bytes
  import opened Words
  import opened Wrappers

  const RESERVATION_BLOCK: nat := 10_000
  const MAX_SEQ: nat := 0x7FFF_FFFF_FFFF_FFFF
  const DIRECTION_BIT: nat := 0x8000_0000_0000_0000

  /** How a write of the identity file ends: a failure may leave the old file or the new one. */
  datatype WriteOutcome = Written | FailedOld | FailedNew

  /** `next.saturating_add(RESERVATION_BLOCK).min(MAX_SEQ)`. */
  function NewLimit(next: nat): nat {
    Min(Min(next + RESERVATION_BLOCK, U64_SPAN - 1), MAX_SEQ)
  }

  // ---------- one node as a value ----------

  datatype Source = Source(next: nat, limit: nat)

  /** The durable reservation, and the source of the process that holds the lock, if one runs. */
  datatype Node = Node(disk: nat, live: Option<Source>)

  function DiskAfter(disk: nat, limit: nat, outcome: WriteOutcome): nat {
    if outcome.FailedOld? then disk else limit
  }

  function Reserve(s: Source, outcome: WriteOutcome): Source {
    if outcome.Written? then s.(limit := NewLimit(s.next)) else s
  }

  function OpenNode(disk: nat, outcome: WriteOutcome): Node {
    var next := Max(disk, 1);
    Node(DiskAfter(disk, NewLimit(next), outcome),
         if outcome.Written? then Some(Reserve(Source(next, next), outcome)) else None)
  }

  /** `next_seq`: reserve when the block is used up, then hand out one number or refuse. */
  function NextSeq(disk: nat, s: Source, outcome: WriteOutcome): (Node, Option<nat>) {
    var full := s.next >= s.limit;
    var disk' := if full then DiskAfter(disk, NewLimit(s.next), outcome) else disk;
    var s' := if full then Reserve(s, outcome) else s;
    if (full && !outcome.Written?) || s'.next >= MAX_SEQ then (Node(disk', Some(s')), None)
    else (Node(disk', Some(s'.(next := s'.next + 1))), Some(s'.next))
  }

  // ---------- runs of one node ----------

  datatype Event = Open(outcome: WriteOutcome) | Next(outcome: WriteOutcome) | Crash

  /**
   * What happened so far: the numbers handed out, how often an open was tried, and how often it
   * had been when each number was handed out.
   */
  datatype Trace = Trace(node: Node, issued: seq<nat>, opens: nat, marks: seq<nat>)

  function Happen(t: Trace, e: Event): Trace {
    match e
    case Open(outcome) =>
      if t.node.live.Some? then t  // the lock is held
      else t.(node := OpenNode(t.node.disk, outcome), opens := t.opens + 1)
    case Next(outcome) =>
      if t.node.live.None? then t
      else
        var (node, out) := NextSeq(t.node.disk, t.node.live.value, outcome);
        if out.Some? then t.(node := node, issued := t.issued + [out.value], marks := t.marks + [t.opens])
        else t.(node := node)
    case Crash => t.(node := t.node.(live := None))
  }

  function Run(t: Trace, events: seq<Event>): Trace
    decreases events
  {
    if events == [] then t else Run(Happen(t, events[0]), events[1..])
  }

  function Booted(disk: nat): Trace { Trace(Node(disk, None), [], 0, []) }

  ghost predicate Increasing(issued: seq<nat>) {
    forall i, j | 0 <= i < j < |issued| :: issued[i] < issued[j]
  }

  /** Every number handed out is below the durable reservation and below the live counter. */
  ghost predicate Safe(t: Trace) {
    && Increasing(t.issued)
    && (forall v | v in t.issued :: 1 <= v < MAX_SEQ && v < t.node.disk)
    && (forall v | v in t.issued && t.node.live.Some? :: v < t.node.live.value.next)
    && (t.node.live.Some? ==> 1 <= t.node.live.value.next && t.node.live.value.limit <= Min(t.node.disk, MAX_SEQ))
  }

  lemma HappenKeepsSafe(t: Trace, e: Event)
    requires Safe(t)
    ensures Safe(Happen(t, e))
  {
    var t' := Happen(t, e);
    forall i, j | 0 <= i < j < |t'.issued|
      ensures t'.issued[i] < t'.issued[j]
    {
      if j == |t.issued| {
        assert t'.issued[i] in t.issued;
      }
    }
  }

  lemma {:induction false} RunKeepsSafe(t: Trace, events: seq<Event>)
    requires Safe(t)
    ensures Safe(Run(t, events))
    ensures t.issued <= Run(t, events).issued
    decreases events
  {
    if events != [] {
      HappenKeepsSafe(t, events[0]);
      RunKeepsSafe(Happen(t, events[0]), events[1..]);
    }
  }

  /**
   * Across opens, failed writes and crashes at any point, the numbers handed out strictly
   * increase inside `1 ..= 2^63 - 2`.
   */
  lemma NeverRewinds(disk: nat, events: seq<Event>)
    ensures var issued := Run(Booted(disk), events).issued;
            Increasing(issued) && forall v | v in issued :: 1 <= v <= MAX_SEQ - 1
  {
    RunKeepsSafe(Booted(disk), events);
  }

  /** Two numbers in a row skip at most one block for every open between them. */
  ghost predicate Step(t: Trace, k: nat)
    requires |t.marks| == |t.issued| && k + 1 < |t.issued|
  {
    t.marks[k] <= t.marks[k + 1] && t.issued[k + 1] <= t.issued[k] + 1 + RESERVATION_BLOCK * (t.marks[k + 1] - t.marks[k])
  }

  /** And so will the next one, in this process or, a block further, after the next open. */
  ghost predicate Close(t: Trace)
    requires |t.marks| == |t.issued| && t.issued != []
  {
    var v, m := t.issued[|t.issued| - 1], t.marks[|t.marks| - 1];
    && m <= t.opens
    && match t.node.live
       case None => Max(t.node.disk, 1) <= v + 1 + RESERVATION_BLOCK * (t.opens - m + 1)
       case Some(s) =>
         && s.next <= v + 1 + RESERVATION_BLOCK * (t.opens - m)
         && t.node.disk <= s.next + RESERVATION_BLOCK
  }

  ghost predicate Thrifty(t: Trace) {
    && |t.marks| == |t.issued|
    && (forall k | 0 <= k < |t.issued| - 1 :: Step(t, k))
    && (t.issued != [] ==> Close(t))
    && (t.node.live.Some? ==> t.node.disk <= t.node.live.value.next + RESERVATION_BLOCK)
  }

  lemma HappenKeepsThrifty(t: Trace, e: Event)
    requires Thrifty(t)
    ensures Thrifty(Happen(t, e))
  {
    var t' := Happen(t, e);
    forall k | 0 <= k < |t'.issued| - 1
      ensures Step(t', k)
    {
      if k < |t.issued| - 1 {
        assert Step(t, k);
      }
    }
  }

  lemma {:induction false} RunKeepsThrifty(t: Trace, events: seq<Event>)
    requires Thrifty(t)
    ensures Thrifty(Run(t, events))
    decreases events
  {
    if events != [] {
      HappenKeepsThrifty(t, events[0]);
      RunKeepsThrifty(Happen(t, events[0]), events[1..]);
      hide Thrifty, Happen;
    }
  }

  /**
   * Every crash costs at most one block: between two numbers handed out in a row lies at most
   * one block for every open between them, and nothing when there was none.
   */
  lemma SkipsAtMostABlockPerCrash(disk: nat, events: seq<Event>, k: nat)
    requires k + 1 < |Run(Booted(disk), events).issued|
    ensures var t := Run(Booted(disk), events);
            && |t.marks| == |t.issued| && t.marks[k] <= t.marks[k + 1]
            && 0 < t.issued[k + 1] - t.issued[k] <= 1 + RESERVATION_BLOCK * (t.marks[k + 1] - t.marks[k])
  {
    RunKeepsThrifty(Booted(disk), events);
    NeverRewinds(disk, events);
    assert Step(Run(Booted(disk), events), k);
  }

  // ---------- nonces of a pair ----------

  datatype Role = Owner | Host

  /** `next_seq()? | role.direction_bit()`. */
  function FullSeq(role: Role, seq': nat): nat {
    if role.Owner? then Or(seq', DIRECTION_BIT) else seq'
  }

  /** The bit is clear in every number handed out, so setting it is adding it. */
  lemma SettingTheBitAdds(n: nat)
    requires n < DIRECTION_BIT
    ensures FullSeq(Owner, n) == n + DIRECTION_BIT && FullSeq(Host, n) == n
  {
    WordPower();
    assert 2 * Pow2(63) == U64_SPAN;
    OrAbove(n, 63);
    hide Or, Pow2;
  }

  function NonceFor(fullSeq: nat): Bytes {
    [0, 0, 0, 0] + BeU64(fullSeq)
  }

  lemma NonceInjective(m: nat, n: nat)
    requires m < U64_SPAN && n < U64_SPAN && NonceFor(m) == NonceFor(n)
    ensures m == n
  {
    assert NonceFor(m)[4..] == BeU64(m) && NonceFor(n)[4..] == BeU64(n);
    Spans();
    BigEndianInjective(m, n, 8);
  }

  function Nonces(role: Role, issued: seq<nat>): seq<Bytes> {
    seq(|issued|, k requires 0 <= k < |issued| => NonceFor(FullSeq(role, issued[k])))
  }

  /** Both ends of a pair share one key: over any two runs, no nonce is ever used twice. */
  lemma NoncesNeverRepeat(ownerDisk: nat, ownerEvents: seq<Event>, hostDisk: nat, hostEvents: seq<Event>)
    ensures var used := Nonces(Owner, Run(Booted(ownerDisk), ownerEvents).issued)
                      + Nonces(Host, Run(Booted(hostDisk), hostEvents).issued);
            forall i, j | 0 <= i < j < |used| :: used[i] != used[j]
  {
    var owner, host := Run(Booted(ownerDisk), ownerEvents).issued, Run(Booted(hostDisk), hostEvents).issued;
    NeverRewinds(ownerDisk, ownerEvents);
    NeverRewinds(hostDisk, hostEvents);
    var used := Nonces(Owner, owner) + Nonces(Host, host);
    forall i, j | 0 <= i < j < |used|
      ensures used[i] != used[j]
    {
      var m, n := FullAt(owner, host, i), FullAt(owner, host, j);
      assert used[i] == NonceFor(m) && used[j] == NonceFor(n);
      FullsDiffer(owner, host, i, j);
      if used[i] == used[j] {
        NonceInjective(m, n);
      }
    }
  }

  /** The `k`-th full sequence: the owner's first, then the host's. */
  function FullAt(owner: seq<nat>, host: seq<nat>, k: nat): nat
    requires k < |owner| + |host|
  {
    if k < |owner| then FullSeq(Owner, owner[k]) else FullSeq(Host, host[k - |owner|])
  }

  lemma FullsDiffer(owner: seq<nat>, host: seq<nat>, i: nat, j: nat)
    requires Increasing(owner) && Increasing(host) && i < j < |owner| + |host|
    requires forall v | v in owner || v in host :: v < MAX_SEQ
    ensures FullAt(owner, host, i) != FullAt(owner, host, j)
    ensures FullAt(owner, host, i) < U64_SPAN && FullAt(owner, host, j) < U64_SPAN
  {
    FullAtAdds(owner, host, i);
    FullAtAdds(owner, host, j);
    hide FullAt;
  }

  lemma FullAtAdds(owner: seq<nat>, host: seq<nat>, k: nat)
    requires k < |owner| + |host| && forall v | v in owner || v in host :: v < MAX_SEQ
    ensures FullAt(owner, host, k) == if k < |owner| then owner[k] + DIRECTION_BIT else host[k - |owner|]
    ensures if k < |owner| then owner[k] < MAX_SEQ else host[k - |owner|] < MAX_SEQ
  {
    if k < |owner| {
      assert owner[k] in owner;
      SettingTheBitAdds(owner[k]);
    } else {
      assert host[k - |owner|] in host;
    }
    hide FullSeq;
  }

  // ---------- the source as the program keeps it ----------

  /** The `seq_reservation` field of the identity file. */
  class Disk {
    var reservation: nat

    constructor (reservation: nat)
      ensures this.reservation == reservation
    {
      this.reservation := reservation;
    }

    method Write(reservation: nat, outcome: WriteOutcome) returns (ok: bool)
      modifies this
      ensures ok <==> outcome.Written?
      ensures this.reservation == DiskAfter(old(this.reservation), reservation, outcome)
    {
      if !outcome.FailedOld? {
        this.reservation := reservation;
      }
      ok := outcome.Written?;
    }
  }

  class ReservedSeq {
    const disk: Disk
    var reservation: nat
    var next: nat
    var limit: nat

    function Value(): Source
      reads this
    {
      Source(next, limit)
    }

    constructor (disk: Disk)
      ensures this.disk == disk && Value() == Source(Max(disk.reservation, 1), Max(disk.reservation, 1))
    {
      this.disk := disk;
      reservation := disk.reservation;
      next := Max(disk.reservation, 1);
      limit := Max(disk.reservation, 1);
    }

    /** Treat everything below the recorded reservation as spent, and reserve the next block. */
    static method Open(disk: Disk, outcome: WriteOutcome) returns (r: Option<ReservedSeq>)
      modifies disk
      ensures OpenNode(old(disk.reservation), outcome)
           == Node(disk.reservation, if r.Some? then Some(r.value.Value()) else None)
      ensures r.Some? ==> fresh(r.value) && r.value.disk == disk
    {
      var source := new ReservedSeq(disk);
      var ok := source.ReserveBlock(outcome);
      r := if ok then Some(source) else None;
    }

    method ReserveBlock(outcome: WriteOutcome) returns (ok: bool)
      modifies this, disk
      ensures ok <==> outcome.Written?
      ensures Value() == Reserve(old(Value()), outcome)
      ensures disk.reservation == DiskAfter(old(disk.reservation), NewLimit(old(next)), outcome)
    {
      var newLimit := NewLimit(next);
      reservation := newLimit;
      ok := disk.Write(newLimit, outcome);
      if ok {
        limit := newLimit;
      }
    }

    method NextNumber(outcome: WriteOutcome) returns (r: Option<nat>)
      modifies this, disk
      ensures NextSeq(old(disk.reservation), old(Value()), outcome) == (Node(disk.reservation, Some(Value())), r)
    {
      if next >= limit {
        var ok := ReserveBlock(outcome);
        if !ok {
          return None;
        }
      }
      if next >= MAX_SEQ {
        return None;
      }
      r := Some(next);
      next := next + 1;
    }
  }
}
