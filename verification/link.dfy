/** The Snabb link (src/core/link.h): a ring of packet handles between one
    producer and one consumer.

    The shared part is the pair of cursors `read` (next slot to read) and
    `write` (next slot to write) and the `packets` array. Each side keeps a
    group of fields of its own: the consumer its cached copy `lwrite` of the
    producer's cursor, its own cursor copy `nread` and the rx counters; the
    producer its cached copy `lread` of the consumer's cursor, its own cursor
    copy `nwrite` and the tx counters. A cached copy of the other side's
    cursor may be stale; it is refreshed from the shared cursor only when it
    makes the ring look full (producer) or empty (consumer). */
module CoreLink {

  import opened Wrappers
  import opened Ring
  import opened Counters

  /** A packet as the link sees it: an opaque handle and a length in bytes. */
  datatype Packet = Packet(handle: nat, length: nat)

  /** The consumer-local group of link.h. */
  datatype Consumer = Consumer(lwrite: int, nread: int, rxbytes: ULong, rxpackets: ULong)

  /** The producer-local group of link.h. */
  datatype Producer = Producer(lread: int, nwrite: int, txbytes: ULong, txpackets: ULong, txdrop: ULong)

  /** `struct link`; a slot holding `None` is a null packet pointer. */
  datatype Link = Link(read: int, write: int, consumer: Consumer, producer: Producer,
                       packets: seq<Option<Packet>>)

  /** What a pop hands back: the link after the pop and the packet, if any. */
  datatype Received = Received(link: Link, packet: Option<Packet>)

  /** The representation invariant of a link. */
  predicate Valid(l: Link) {
    && InRing(l.read) && InRing(l.write)
    && |l.packets| == RING_SIZE
    // each side's own copy of its cursor is the published one
    && l.consumer.nread == l.read
    && l.producer.nwrite == l.write
    // the producer's copy of `read` is an earlier value of `read`: walking
    // forward from it one meets `read` no later than `write`
    && InRing(l.producer.lread)
    && Dist(l.producer.lread, l.read) <= Dist(l.producer.lread, l.write)
    // the consumer's copy of `write` is an earlier value of `write`: it
    // lies on the way from `read` to `write`
    && InRing(l.consumer.lwrite)
    && Dist(l.read, l.consumer.lwrite) <= Dist(l.read, l.write)
    // every slot of the live window [read, write) holds a packet
    && Filled(l.packets, l.read, Dist(l.read, l.write))
  }

  /** The `n` slots from cursor `start` on all hold packets. */
  predicate Filled(packets: seq<Option<Packet>>, start: int, n: int)
    requires |packets| == RING_SIZE && InRing(start) && n < RING_SIZE
  {
    forall i :: 0 <= i < n ==> packets[Slot(start, i)].Some?
  }

  /** Dropping the first slot of a filled window leaves a filled window. */
  lemma FilledTail(packets: seq<Option<Packet>>, start: int, n: int)
    requires |packets| == RING_SIZE && InRing(start) && 0 < n < RING_SIZE
    requires Filled(packets, start, n)
    ensures Filled(packets, Next(start), n - 1)
  {
    forall i | 0 <= i < n - 1
      ensures packets[Slot(Next(start), i)].Some?
    {
      assert Slot(Next(start), i) == Slot(start, i + 1);
    }
  }

  /** A freshly created link: zeroed cursors, counters and slots. */
  function New(): (l: Link)
    ensures Valid(l)
    ensures Occupancy(l) == 0
  {
    Link(0, 0, Consumer(0, 0, 0, 0), Producer(0, 0, 0, 0, 0), seq(RING_SIZE, _ => None))
  }

  /** The number of packets in the ring. */
  function Occupancy(l: Link): (n: int)
    requires Valid(l)
    ensures 0 <= n <= MAX_PACKETS
    ensures n == 0 <==> l.read == l.write
  {
    Dist(l.read, l.write)
  }

  /** The consumer's test: nothing to read. */
  predicate Empty(l: Link) {
    l.read == l.write
  }

  /** The producer's test: writing would make `write` catch up with `read`. */
  predicate Full(l: Link)
    requires InRing(l.write)
  {
    Next(l.write) == l.read
  }

  /** The packets in the live window, oldest first: the queue the link
      implements. */
  function Contents(l: Link): (q: seq<Packet>)
    requires Valid(l)
    ensures |q| == Occupancy(l)
    ensures forall i :: 0 <= i < |q| ==> l.packets[Slot(l.read, i)] == Some(q[i])
  {
    seq(Dist(l.read, l.write), i requires 0 <= i < Dist(l.read, l.write) => l.packets[Slot(l.read, i)].value)
  }

  /** Sum of the packet lengths of a queue. */
  function Bytes(q: seq<Packet>): nat {
    if q == [] then 0 else q[0].length + Bytes(q[1..])
  }

  /** Push: the producer's cached `lread` is refreshed when it makes the ring
      look full; if the ring is then still full the packet is dropped and
      counted, otherwise it is stored at `packets[write]` and `write` moves on. */
  function Push(l: Link, p: Packet): (r: Link)
    requires Valid(l)
    ensures Valid(r)
  {
    var lread := if Next(l.write) == l.producer.lread then l.read else l.producer.lread;
    if Next(l.write) == lread then
      l.(producer := l.producer.(lread := lread, txdrop := Add(l.producer.txdrop, 1)))
    else
      StepTo(l.read, l.write);
      StepTo(lread, l.write);
      OnPath(lread, l.read, l.write);
      var w := Next(l.write);
      l.(write := w,
         packets := l.packets[l.write := Some(p)],
         producer := Producer(lread, w, Add(l.producer.txbytes, p.length),
                              Add(l.producer.txpackets, 1), l.producer.txdrop))
  }

  /** Pop: the consumer's cached `lwrite` is refreshed when it makes the
      ring look empty; if the ring is then still empty there is no packet,
      otherwise the packet at `packets[read]` is taken and `read` moves on. */
  function Pop(l: Link): (r: Received)
    requires Valid(l)
    ensures Valid(r.link)
  {
    var lwrite := if l.read == l.consumer.lwrite then l.write else l.consumer.lwrite;
    if l.read == lwrite then
      Received(l.(consumer := l.consumer.(lwrite := lwrite)), None)
    else
      assert l.packets[Slot(l.read, 0)].Some?;
      var p := l.packets[l.read].value;
      StepFrom(l.read, l.write);
      StepFrom(l.read, lwrite);
      FilledTail(l.packets, l.read, Dist(l.read, l.write));
      OnPath(l.producer.lread, l.read, l.write);
      StepTo(l.producer.lread, l.read);
      var rd := Next(l.read);
      Received(l.(read := rd,
                  consumer := Consumer(lwrite, rd, Add(l.consumer.rxbytes, p.length),
                                       Add(l.consumer.rxpackets, 1))),
               Some(p))
  }
}
