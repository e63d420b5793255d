/** What one push or one pop does to a link, stated against the queue view
    `Contents` and field by field. */
module LinkLaws {

  import opened Wrappers
  import opened Ring
  import opened Counters
  import opened CoreLink

  /** A valid link is empty exactly when it holds no packet and full exactly
      when it holds LINK_MAX_PACKETS, and never both. */
  lemma EmptyFullDistinct(l: Link)
    requires Valid(l)
    ensures Empty(l) <==> Occupancy(l) == 0
    ensures Full(l) <==> Occupancy(l) == MAX_PACKETS
    ensures !(Empty(l) && Full(l))
  {
    BehindIsFarthest(l.read, l.write);
  }

  /** The cached cursors only ever err on the safe side: the producer's view
      of the occupancy is never below the true one and the consumer's never
      above it, and both are exact when the ring is truly full or empty. */
  lemma CachesConservative(l: Link)
    requires Valid(l)
    ensures Occupancy(l) <= Dist(l.producer.lread, l.write)
    ensures Dist(l.read, l.consumer.lwrite) <= Occupancy(l)
    ensures Full(l) ==> l.producer.lread == l.read
    ensures Empty(l) ==> l.consumer.lwrite == l.read
    ensures Next(l.write) != l.producer.lread ==> !Full(l)
    ensures l.consumer.lwrite != l.read ==> !Empty(l)
  {
    OnPath(l.producer.lread, l.read, l.write);
    BehindIsFarthest(l.read, l.write);
    BehindIsFarthest(l.producer.lread, l.write);
  }

  /** A push on a full link stores nothing and moves no cursor: only the
      drop counter goes up, by one. */
  lemma PushFull(l: Link, p: Packet)
    requires Valid(l) && Full(l)
    ensures Push(l, p) == l.(producer := l.producer.(txdrop := Add(l.producer.txdrop, 1)))
  {
    CachesConservative(l);
  }

  /** A push on a link with room stores the packet at `packets[write]`,
      advances `write`, counts the packet and its bytes, and appends the
      packet to the queue; `read`, every other slot and the consumer's
      fields stay as they were. */
  lemma PushRoom(l: Link, p: Packet)
    requires Valid(l) && !Full(l)
    ensures Push(l, p).read == l.read
    ensures Push(l, p).write == Next(l.write)
    ensures Push(l, p).packets == l.packets[l.write := Some(p)]
    ensures Push(l, p).consumer == l.consumer
    ensures Push(l, p).producer.txpackets == Add(l.producer.txpackets, 1)
    ensures Push(l, p).producer.txbytes == Add(l.producer.txbytes, p.length)
    ensures Push(l, p).producer.txdrop == l.producer.txdrop
    ensures Occupancy(Push(l, p)) == Occupancy(l) + 1
    ensures Contents(Push(l, p)) == Contents(l) + [p]
  {
    CachesConservative(l);
    StepTo(l.read, l.write);
    var r := Push(l, p);
    var q := Contents(l) + [p];
    forall i | 0 <= i < |q|
      ensures Contents(r)[i] == q[i]
    {
      if i < Occupancy(l) {
        assert Slot(l.read, i) != l.write;
      } else {
        SlotAtDist(l.read, l.write);
      }
    }
  }

  /** A pop on an empty link changes nothing and yields no packet. */
  lemma PopEmpty(l: Link)
    requires Valid(l) && Empty(l)
    ensures Pop(l) == Received(l, None)
  {
    CachesConservative(l);
  }

  /** A pop on a non-empty link yields the oldest packet, the one at
      `packets[read]`, advances `read`, counts the packet and its bytes and
      removes the packet from the head of the queue; `write`, the slots and
      the producer's fields stay as they were. */
  lemma PopNonEmpty(l: Link)
    requires Valid(l) && !Empty(l)
    ensures Pop(l).packet == Some(Contents(l)[0])
    ensures l.packets[l.read] == Some(Contents(l)[0])
    ensures Pop(l).link.read == Next(l.read)
    ensures Pop(l).link.write == l.write
    ensures Pop(l).link.packets == l.packets
    ensures Pop(l).link.producer == l.producer
    ensures Pop(l).link.consumer.rxpackets == Add(l.consumer.rxpackets, 1)
    ensures Pop(l).link.consumer.rxbytes == Add(l.consumer.rxbytes, Contents(l)[0].length)
    ensures Occupancy(Pop(l).link) == Occupancy(l) - 1
    ensures Contents(Pop(l).link) == Contents(l)[1..]
  {
    StepFrom(l.read, l.write);
    var r := Pop(l).link;
    forall i | 0 <= i < Occupancy(r)
      ensures Contents(r)[i] == Contents(l)[i + 1]
    {
      assert Slot(r.read, i) == Slot(l.read, i + 1);
    }
  }

  /** Appending a packet adds its length to the byte count of a queue. */
  lemma {:induction false} BytesAppend(q: seq<Packet>, p: Packet)
    ensures Bytes(q + [p]) == Bytes(q) + p.length
  {
    if q != [] {
      assert (q + [p])[1..] == q[1..] + [p];
      BytesAppend(q[1..], p);
    }
  }

  /** The counters agree with the ring: the producer has sent, and the
      consumer not yet received, exactly the packets and bytes in the queue
      (all modulo 2^64, as unsigned long subtraction computes it). */
  predicate Accounted(l: Link)
    requires Valid(l)
  {
    && Ahead(l.consumer.rxpackets, l.producer.txpackets) == Occupancy(l)
    && Ahead(l.consumer.rxbytes, l.producer.txbytes) == Bytes(Contents(l)) % ULONG_LIMIT
  }

  /** A new link is accounted for. */
  lemma NewAccounted()
    ensures Accounted(New())
  {
    assert Contents(New()) == [];
  }

  /** Pushes keep the counters in agreement with the ring. */
  lemma PushAccounted(l: Link, p: Packet)
    requires Valid(l) && Accounted(l)
    ensures Accounted(Push(l, p))
  {
    if Full(l) {
      PushFull(l, p);
      SameWindow(l, Push(l, p));
    } else {
      PushRoomAccounted(l, p);
    }
  }

  /** Two links with the same cursors and slots hold the same queue. */
  lemma SameWindow(a: Link, b: Link)
    requires Valid(a) && Valid(b)
    requires a.read == b.read && a.write == b.write && a.packets == b.packets
    ensures Contents(a) == Contents(b)
  {
  }

  /** The room case of `PushAccounted`. */
  lemma PushRoomAccounted(l: Link, p: Packet)
    requires Valid(l) && Accounted(l) && !Full(l)
    ensures Accounted(Push(l, p))
  {
    PushRoom(l, p);
    var r := Push(l, p);
    var q := Contents(l);
    BytesAppend(q, p);
    GainAhead(l.consumer.rxpackets, l.producer.txpackets, Occupancy(l), 1);
    GainAhead(l.consumer.rxbytes, l.producer.txbytes, Bytes(q), p.length);
    AccountedFrom(r, Occupancy(l) + 1, Bytes(q) + p.length);
  }

  /** `Accounted` from the two counter differences. */
  lemma AccountedFrom(r: Link, n: nat, b: nat)
    requires Valid(r) && Occupancy(r) == n && Bytes(Contents(r)) == b
    requires Ahead(r.consumer.rxpackets, r.producer.txpackets) == n % ULONG_LIMIT
    requires Ahead(r.consumer.rxbytes, r.producer.txbytes) == b % ULONG_LIMIT
    ensures Accounted(r)
  {
  }

  /** Pops keep the counters in agreement with the ring. */
  lemma PopAccounted(l: Link)
    requires Valid(l) && Accounted(l)
    ensures Accounted(Pop(l).link)
  {
    if Empty(l) {
      PopEmpty(l);
    } else {
      PopDeliverAccounted(l);
    }
  }

  /** The delivering case of `PopAccounted`. */
  lemma PopDeliverAccounted(l: Link)
    requires Valid(l) && Accounted(l) && !Empty(l)
    ensures Accounted(Pop(l).link)
  {
    PopNonEmpty(l);
    var q := Contents(l);
    var n, rest := Occupancy(l) - 1, Bytes(q[1..]);
    assert Bytes(q) == q[0].length + rest;
    LoseAhead(l.consumer.rxpackets, l.producer.txpackets, n, 1);
    LoseAhead(l.consumer.rxbytes, l.producer.txbytes, rest, q[0].length);
    AccountedFrom(Pop(l).link, n, rest);
  }
}
