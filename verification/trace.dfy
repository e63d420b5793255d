/** Runs of a link: a sequence of pushes and pops applied one after the
    other, with a record of which pushed packets were accepted or dropped
    and which packets the pops delivered. */
module LinkTrace {

  import opened Wrappers
  import opened Ring
  import opened Counters
  import opened CoreLink
  import opened LinkLaws

  /** One call on the link: the producer's push or the consumer's pop. */
  datatype Op = Transmit(p: Packet) | Receive

  /** The state reached by a run and what the run observed on the way. */
  datatype Run = Run(link: Link, delivered: seq<Packet>, accepted: seq<Packet>, dropped: seq<Packet>)

  /** Apply one call and record its outcome. */
  function Step(r: Run, op: Op): (s: Run)
    requires Valid(r.link)
    ensures Valid(s.link)
  {
    match op
    case Transmit(p) =>
      if Full(r.link) then r.(link := Push(r.link, p), dropped := r.dropped + [p])
      else r.(link := Push(r.link, p), accepted := r.accepted + [p])
    case Receive =>
      var rc := Pop(r.link);
      match rc.packet
      case None => r.(link := rc.link)
      case Some(p) => r.(link := rc.link, delivered := r.delivered + [p])
  }

  /** Apply the calls of `ops` in order, starting from `l`. */
  function Exec(l: Link, ops: seq<Op>): (r: Run)
    requires Valid(l)
    ensures Valid(r.link)
    decreases |ops|
  {
    if ops == [] then Run(l, [], [], [])
    else Step(Exec(l, ops[..|ops| - 1]), ops[|ops| - 1])
  }

  /** The number of push attempts among `ops`. */
  function Attempts(ops: seq<Op>): nat {
    if ops == [] then 0
    else Attempts(ops[..|ops| - 1]) + (if ops[|ops| - 1].Transmit? then 1 else 0)
  }

  /** Pushes of the packets `ps`, in order. */
  function Transmits(ps: seq<Packet>): (ops: seq<Op>)
    ensures |ops| == |ps|
    ensures forall i :: 0 <= i < |ps| ==> ops[i] == Transmit(ps[i])
  {
    seq(|ps|, i requires 0 <= i < |ps| => Transmit(ps[i]))
  }

  /** `k` pops in a row. */
  function Receives(k: nat): (ops: seq<Op>)
    ensures |ops| == k
    ensures forall i :: 0 <= i < k ==> ops[i] == Receive
  {
    seq(k, _ => Receive)
  }

  /** One call keeps "delivered, then queued, is `base` then accepted". */
  lemma StepFifo(r: Run, op: Op, base: seq<Packet>)
    requires Valid(r.link)
    requires r.delivered + Contents(r.link) == base + r.accepted
    ensures Step(r, op).delivered + Contents(Step(r, op).link) == base + Step(r, op).accepted
  {
    match op
    case Transmit(p) =>
      if Full(r.link) {
        PushFull(r.link, p);
        SameWindow(r.link, Push(r.link, p));
      } else {
        PushRoom(r.link, p);
        var q := Contents(r.link);
        assert r.delivered + (q + [p]) == (r.delivered + q) + [p];
      }
    case Receive =>
      if Empty(r.link) {
        PopEmpty(r.link);
      } else {
        PopNonEmpty(r.link);
        var q := Contents(r.link);
        assert r.delivered + q == (r.delivered + [q[0]]) + q[1..];
      }
  }

  /** FIFO without loss or duplication: what a run delivered, followed by
      what is still queued, is what was queued at the start followed by the
      packets the run accepted, in the order they were pushed. */
  lemma {:induction false} Fifo(l: Link, ops: seq<Op>)
    requires Valid(l)
    ensures Exec(l, ops).delivered + Contents(Exec(l, ops).link) == Contents(l) + Exec(l, ops).accepted
  {
    if ops == [] {
      assert Contents(l) + [] == Contents(l);
    } else {
      var prefix := ops[..|ops| - 1];
      Fifo(l, prefix);
      StepFifo(Exec(l, prefix), ops[|ops| - 1], Contents(l));
    }
  }

  /** Every push attempt is accepted or dropped, exactly one of the two. */
  lemma {:induction false} AttemptsSplit(l: Link, ops: seq<Op>)
    requires Valid(l)
    ensures |Exec(l, ops).accepted| + |Exec(l, ops).dropped| == Attempts(ops)
  {
    if ops != [] {
      AttemptsSplit(l, ops[..|ops| - 1]);
    }
  }

  /** The counters of `r.link` have moved on from those of `l0`, modulo
      2^64, by the packets and bytes the run accepted, the packets it
      dropped and the packets and bytes it delivered. */
  predicate Tracked(l0: Link, r: Run) {
    && Ahead(l0.producer.txpackets, r.link.producer.txpackets) == |r.accepted| % ULONG_LIMIT
    && Ahead(l0.producer.txbytes, r.link.producer.txbytes) == Bytes(r.accepted) % ULONG_LIMIT
    && Ahead(l0.producer.txdrop, r.link.producer.txdrop) == |r.dropped| % ULONG_LIMIT
    && Ahead(l0.consumer.rxpackets, r.link.consumer.rxpackets) == |r.delivered| % ULONG_LIMIT
    && Ahead(l0.consumer.rxbytes, r.link.consumer.rxbytes) == Bytes(r.delivered) % ULONG_LIMIT
  }

  /** One call keeps the counters tracking the run. */
  lemma StepTracked(l0: Link, r: Run, op: Op)
    requires Valid(r.link) && Tracked(l0, r)
    ensures Tracked(l0, Step(r, op))
  {
    match op
    case Transmit(p) =>
      if Full(r.link) {
        DropTracked(l0, r, p);
      } else {
        AcceptTracked(l0, r, p);
      }
    case Receive =>
      if Empty(r.link) {
        PopEmpty(r.link);
      } else {
        DeliverTracked(l0, r);
      }
  }

  /** A dropped push is counted by `txdrop` alone. */
  lemma DropTracked(l0: Link, r: Run, p: Packet)
    requires Valid(r.link) && Tracked(l0, r) && Full(r.link)
    ensures Tracked(l0, Step(r, Transmit(p)))
  {
    PushFull(r.link, p);
    GainAhead(l0.producer.txdrop, r.link.producer.txdrop, |r.dropped|, 1);
  }

  /** An accepted push is counted by `txpackets` and `txbytes`. */
  lemma AcceptTracked(l0: Link, r: Run, p: Packet)
    requires Valid(r.link) && Tracked(l0, r) && !Full(r.link)
    ensures Tracked(l0, Step(r, Transmit(p)))
  {
    var tx := r.link.producer;
    PushRoom(r.link, p);
    GainAhead(l0.producer.txpackets, tx.txpackets, |r.accepted|, 1);
    GainAhead(l0.producer.txbytes, tx.txbytes, Bytes(r.accepted), p.length);
    BytesAppend(r.accepted, p);
  }

  /** A pop that delivers is counted by `rxpackets` and `rxbytes`. */
  lemma DeliverTracked(l0: Link, r: Run)
    requires Valid(r.link) && Tracked(l0, r) && !Empty(r.link)
    ensures Tracked(l0, Step(r, Receive))
  {
    var rx := r.link.consumer;
    PopNonEmpty(r.link);
    var p := Contents(r.link)[0];
    GainAhead(l0.consumer.rxpackets, rx.rxpackets, |r.delivered|, 1);
    GainAhead(l0.consumer.rxbytes, rx.rxbytes, Bytes(r.delivered), p.length);
    BytesAppend(r.delivered, p);
  }

  /** The link's own counters track every run. */
  lemma {:induction false} CountersTrack(l: Link, ops: seq<Op>)
    requires Valid(l)
    ensures Tracked(l, Exec(l, ops))
  {
    if ops == [] {
      assert Bytes([]) == 0;
    } else {
      var prefix := ops[..|ops| - 1];
      CountersTrack(l, prefix);
      StepTracked(l, Exec(l, prefix), ops[|ops| - 1]);
    }
  }

  /** Runs keep the counters in agreement with the ring. */
  lemma {:induction false} RunAccounted(l: Link, ops: seq<Op>)
    requires Valid(l) && Accounted(l)
    ensures Accounted(Exec(l, ops).link)
  {
    if ops != [] {
      var r := Exec(l, ops[..|ops| - 1]);
      RunAccounted(l, ops[..|ops| - 1]);
      match ops[|ops| - 1]
      case Transmit(p) => PushAccounted(r.link, p);
      case Receive => PopAccounted(r.link);
    }
  }

  /** `r` with the records of an earlier run `e` put in front. */
  function After(e: Run, r: Run): Run {
    Run(r.link, e.delivered + r.delivered, e.accepted + r.accepted, e.dropped + r.dropped)
  }

  /** A call's outcome does not depend on what was recorded before it. */
  lemma StepAfter(e: Run, r: Run, op: Op)
    requires Valid(r.link)
    ensures Step(After(e, r), op) == After(e, Step(r, op))
  {
    match op
    case Transmit(p) =>
      assert e.dropped + (r.dropped + [p]) == (e.dropped + r.dropped) + [p];
      assert e.accepted + (r.accepted + [p]) == (e.accepted + r.accepted) + [p];
    case Receive =>
      match Pop(r.link).packet
      case None =>
      case Some(p) =>
        assert e.delivered + (r.delivered + [p]) == (e.delivered + r.delivered) + [p];
  }

  /** Running `a` and then `b` is running `a + b`. */
  lemma {:induction false} ExecAppend(l: Link, a: seq<Op>, b: seq<Op>)
    requires Valid(l)
    ensures Exec(l, a + b) == After(Exec(l, a), Exec(Exec(l, a).link, b))
    decreases |b|
  {
    var ra := Exec(l, a);
    if b == [] {
      assert a + b == a;
      assert After(ra, Run(ra.link, [], [], [])) == ra;
    } else {
      var b', op := b[..|b| - 1], b[|b| - 1];
      assert (a + b)[..|a + b| - 1] == a + b';
      assert (a + b)[|a + b| - 1] == op;
      ExecAppend(l, a, b');
      StepAfter(ra, Exec(ra.link, b'), op);
    }
  }

  /** Popping an empty link, however many times, changes nothing and
      delivers nothing. */
  lemma {:induction false} ReceiveEmpty(l: Link, k: nat)
    requires Valid(l) && Empty(l)
    ensures Exec(l, Receives(k)) == Run(l, [], [], [])
  {
    if k > 0 {
      assert Receives(k)[..k - 1] == Receives(k - 1);
      ReceiveEmpty(l, k - 1);
      PopEmpty(l);
    }
  }

  /** A push with room records the packet as accepted and queues it. */
  lemma StepAccept(r: Run, p: Packet)
    requires Valid(r.link) && !Full(r.link)
    ensures Step(r, Transmit(p)).accepted == r.accepted + [p]
    ensures Step(r, Transmit(p)).dropped == r.dropped
    ensures Step(r, Transmit(p)).delivered == r.delivered
    ensures Contents(Step(r, Transmit(p)).link) == Contents(r.link) + [p]
  {
    PushRoom(r.link, p);
  }

  /** A pop on a non-empty link records the oldest packet as delivered
      and removes it from the queue. */
  lemma StepDeliver(r: Run)
    requires Valid(r.link) && !Empty(r.link)
    ensures Step(r, Receive).delivered == r.delivered + [Contents(r.link)[0]]
    ensures Step(r, Receive).accepted == r.accepted
    ensures Step(r, Receive).dropped == r.dropped
    ensures Contents(Step(r, Receive).link) == Contents(r.link)[1..]
  {
    PopNonEmpty(r.link);
  }

  /** A run that has only queued `ps` on top of `base`. */
  predicate QueuedOnly(r: Run, base: seq<Packet>, ps: seq<Packet>)
    requires Valid(r.link)
  {
    && r.accepted == ps && r.dropped == [] && r.delivered == []
    && Contents(r.link) == base + ps
  }

  /** One more push with room extends such a run by the packet. */
  lemma QueuedOnlyStep(r: Run, base: seq<Packet>, ps: seq<Packet>, p: Packet)
    requires Valid(r.link) && QueuedOnly(r, base, ps)
    requires |base| + |ps| < MAX_PACKETS
    ensures QueuedOnly(Step(r, Transmit(p)), base, ps + [p])
  {
    EmptyFullDistinct(r.link);
    StepAccept(r, p);
    assert (base + ps) + [p] == base + (ps + [p]);
  }

  /** The pushes of `ps` are those of all but its last packet, then the
      push of the last. */
  lemma TransmitsLast(ps: seq<Packet>)
    requires ps != []
    ensures Transmits(ps)[..|ps| - 1] == Transmits(ps[..|ps| - 1])
    ensures Transmits(ps)[|ps| - 1] == Transmit(ps[|ps| - 1])
  {
  }

  /** Pushing packets that fit appends all of them and drops none. */
  lemma {:induction false} TransmitRoom(l: Link, ps: seq<Packet>)
    requires Valid(l)
    requires Occupancy(l) + |ps| <= MAX_PACKETS
    ensures QueuedOnly(Exec(l, Transmits(ps)), Contents(l), ps)
  {
    if ps == [] {
      assert Contents(l) + ps == Contents(l);
    } else {
      var ps', p := ps[..|ps| - 1], ps[|ps| - 1];
      TransmitRoom(l, ps');
      TransmitsLast(ps);
      QueuedOnlyStep(Exec(l, Transmits(ps')), Contents(l), ps', p);
      assert ps' + [p] == ps;
    }
  }

  /** A run that has only delivered the first `k` packets of `q`. */
  predicate DeliveredOnly(r: Run, q: seq<Packet>, k: nat)
    requires Valid(r.link) && k <= |q|
  {
    && r.delivered == q[..k] && r.accepted == [] && r.dropped == []
    && Contents(r.link) == q[k..]
  }

  /** One more pop on such a run delivers the next packet of `q`. */
  lemma DeliveredOnlyStep(r: Run, q: seq<Packet>, k: nat)
    requires Valid(r.link) && k < |q| && DeliveredOnly(r, q, k)
    ensures DeliveredOnly(Step(r, Receive), q, k + 1)
  {
    StepDeliver(r);
    assert q[..k] + [q[k]] == q[..k + 1];
    assert q[k..][1..] == q[k + 1..];
  }

  /** `k` pops on a link holding at least `k` packets deliver the `k`
      oldest ones, in order, and leave the rest queued. */
  lemma {:induction false} ReceiveQueued(l: Link, k: nat)
    requires Valid(l) && k <= Occupancy(l)
    ensures DeliveredOnly(Exec(l, Receives(k)), Contents(l), k)
  {
    if k == 0 {
      assert Contents(l)[0..] == Contents(l);
    } else {
      assert Receives(k)[..k - 1] == Receives(k - 1);
      ReceiveQueued(l, k - 1);
      DeliveredOnlyStep(Exec(l, Receives(k - 1)), Contents(l), k - 1);
    }
  }

  /** On a new link, the counters are exact (below 2^64 packets). */
  lemma NewCounters(ops: seq<Op>)
    ensures var r := Exec(New(), ops);
      && r.link.producer.txpackets == |r.accepted| % ULONG_LIMIT
      && r.link.producer.txdrop == |r.dropped| % ULONG_LIMIT
      && r.link.consumer.rxpackets == |r.delivered| % ULONG_LIMIT
  {
    var r := Exec(New(), ops);
    CountersTrack(New(), ops);
    assert Ahead(0, r.link.producer.txpackets) == r.link.producer.txpackets;
    assert Ahead(0, r.link.producer.txdrop) == r.link.producer.txdrop;
    assert Ahead(0, r.link.consumer.rxpackets) == r.link.consumer.rxpackets;
  }

  /** Once a run from a new link has drained it, every push attempt was
      either delivered or dropped, and what was delivered is exactly what
      was accepted, in order. */
  lemma Drained(ops: seq<Op>)
    requires Empty(Exec(New(), ops).link)
    ensures Exec(New(), ops).delivered == Exec(New(), ops).accepted
    ensures |Exec(New(), ops).delivered| + |Exec(New(), ops).dropped| == Attempts(ops)
  {
    var r := Exec(New(), ops);
    Fifo(New(), ops);
    AttemptsSplit(New(), ops);
    assert |Contents(New())| == 0 && |Contents(r.link)| == 0;
    assert r.delivered + Contents(r.link) == r.delivered;
    assert Contents(New()) + r.accepted == r.accepted;
  }

  /** Filling a new link with LINK_MAX_PACKETS packets queues them all and
      leaves it full. */
  lemma FillNew(ps: seq<Packet>)
    requires |ps| == MAX_PACKETS
    ensures QueuedOnly(Exec(New(), Transmits(ps)), [], ps)
    ensures Full(Exec(New(), Transmits(ps)).link)
  {
    TransmitRoom(New(), ps);
    assert Contents(New()) == [];
    EmptyFullDistinct(Exec(New(), Transmits(ps)).link);
  }

  /** A single push on a full link is a recorded drop and nothing else. */
  lemma DropOne(l: Link, p: Packet)
    requires Valid(l) && Full(l)
    ensures Exec(l, [Transmit(p)]) ==
            Run(l.(producer := l.producer.(txdrop := Add(l.producer.txdrop, 1))), [], [], [p])
  {
    assert [Transmit(p)][..0] == [];
    PushFull(l, p);
  }

  /** The calls of the reference scenario: LINK_MAX_PACKETS pushes, one
      more push, LINK_MAX_PACKETS pops, one more pop. */
  function Scenario(ps: seq<Packet>, extra: Packet): seq<Op> {
    Transmits(ps) + [Transmit(extra)] + Receives(MAX_PACKETS) + Receives(1)
  }

  /** What the reference scenario records: all of `ps` accepted, `extra`
      dropped, all of `ps` delivered in push order, and an empty ring. */
  lemma ScenarioRecords(ps: seq<Packet>, extra: Packet)
    requires |ps| == MAX_PACKETS
    ensures
      var r := Exec(New(), Scenario(ps, extra));
      r.accepted == ps && r.dropped == [extra] && r.delivered == ps && Empty(r.link)
  {
    var a, b, c, d := Transmits(ps), [Transmit(extra)], Receives(MAX_PACKETS), Receives(1);
    var r1 := Exec(New(), a);
    FillNew(ps);
    var r2 := Exec(r1.link, b);
    DropOne(r1.link, extra);
    SameWindow(r1.link, r2.link);
    var r3 := Exec(r2.link, c);
    ReceiveQueued(r2.link, MAX_PACKETS);
    assert ps[..MAX_PACKETS] == ps && ps[MAX_PACKETS..] == [];
    assert Empty(r3.link);
    ReceiveEmpty(r3.link, 1);
    ExecAppend(New(), a, b);
    ExecAppend(New(), a + b, c);
    ExecAppend(New(), a + b + c, d);
  }

  /** The reference scenario on a new link: LINK_MAX_PACKETS pushes all
      succeed and fill the ring; one more push is dropped and counted; as
      many pops return the packets in push order and empty the ring; one
      more pop finds nothing. The counters end at 1023 sent, 1 dropped and
      1023 received. */
  lemma FillAndDrain(ps: seq<Packet>, extra: Packet)
    requires |ps| == MAX_PACKETS
    ensures
      var r := Exec(New(), Scenario(ps, extra));
      && r.accepted == ps && r.dropped == [extra] && r.delivered == ps
      && Empty(r.link)
      && r.link.producer.txpackets == MAX_PACKETS
      && r.link.producer.txdrop == 1
      && r.link.consumer.rxpackets == MAX_PACKETS
  {
    ScenarioRecords(ps, extra);
    NewCounters(Scenario(ps, extra));
    assert MAX_PACKETS % ULONG_LIMIT == MAX_PACKETS && 1 % ULONG_LIMIT == 1;
  }
}
