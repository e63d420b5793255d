/** The link as the C code lays it out: one mutable object with a fixed
    array of LINK_RING_SIZE packet slots, the shared cursors and the two
    per-side field groups. Its push and pop update the object in place and
    are proved to do exactly what `CoreLink.Push` and `CoreLink.Pop` do. */
module LinkBuffer {

  import opened Wrappers
  import opened Ring
  import opened Counters
  import opened CoreLink

  class RingLink {
    var read: int
    var write: int
    var consumer: Consumer
    var producer: Producer
    const packets: array<Option<Packet>>

    /** The value this object currently represents. */
    function Model(): Link
      reads this, packets
    {
      Link(read, write, consumer, producer, packets[..])
    }

    ghost predicate Inv()
      reads this, packets
    {
      packets.Length == RING_SIZE && Valid(Model())
    }

    /** A zeroed link. */
    constructor ()
      ensures Inv() && Model() == New()
    {
      read, write := 0, 0;
      consumer := Consumer(0, 0, 0, 0);
      producer := Producer(0, 0, 0, 0, 0);
      packets := new Option<Packet>[RING_SIZE](_ => None);
    }

    /** Push `p`, or count a drop when the ring is full. */
    method Transmit(p: Packet)
      requires Inv()
      modifies this, packets
      ensures Inv()
      ensures Model() == Push(old(Model()), p)
    {
      var lread := producer.lread;
      if Next(write) == lread {
        lread := read;
      }
      if Next(write) == lread {
        producer := producer.(lread := lread, txdrop := Add(producer.txdrop, 1));
      } else {
        packets[write] := Some(p);
        write := Next(write);
        producer := Producer(lread, write, Add(producer.txbytes, p.length),
                             Add(producer.txpackets, 1), producer.txdrop);
      }
    }

    /** Pop the oldest packet, or report that there is none. */
    method Receive() returns (packet: Option<Packet>)
      requires Inv()
      modifies this
      ensures Received(Model(), packet) == Pop(old(Model()))
      ensures Inv()
    {
      var lwrite := consumer.lwrite;
      if read == lwrite {
        lwrite := write;
      }
      if read == lwrite {
        consumer := consumer.(lwrite := lwrite);
        packet := None;
      } else {
        var m := Model();
        assert m.packets[Slot(m.read, 0)].Some?;
        var p := packets[read].value;
        read := Next(read);
        consumer := Consumer(lwrite, read, Add(consumer.rxbytes, p.length),
                             Add(consumer.rxpackets, 1));
        packet := Some(p);
      }
    }
  }
}
