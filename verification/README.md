# Snabb link: a verified model of the packet ring

Snabb moves packets between processing stages over *links*. A link is a
circular ring of `LINK_RING_SIZE` = 1024 packet handles with one producer
and one consumer. `struct link` in `src/core/link.h` declares it. There are
two shared cursors: `read` is the next slot to read and `write` is the next
slot to write. One slot always stays empty, so at most `LINK_MAX_PACKETS` =
1023 packets are queued. This lets "empty" (`read == write`) be told apart
from "full" (`write` one slot behind `read`). The other fields come in two
groups, one per side:

- consumer: `lwrite`, `nread`, `rxbytes`, `rxpackets`;
- producer: `lread`, `nwrite`, `txbytes`, `txpackets`, `txdrop`.

The model is a value-level Dafny datatype that mirrors that layout
(`CoreLink.Link`, with `Consumer` and `Producer` records for the two groups).
Push and pop are pure functions over it. The header does not contain the
push and pop bodies, so the model uses the standard circular-buffer
operations that the header's comment points to:

- Push stores the handle at `packets[write]` and advances `write` modulo
  1024. If the ring is full, it counts a drop in `txdrop` instead.
- Pop takes `packets[read]` and advances `read`. If the ring is empty, it
  reports that there is no packet.

Each side's cached copy of the other side's cursor (`lread`, `lwrite`) may be
stale. A side refreshes its cached copy from the shared cursor only when the
copy makes the ring look full (producer) or empty (consumer). Each side's own
cursor copy (`nwrite`, `nread`) is published on every step, so it equals the
shared cursor. The statistics counters are C `unsigned long` and wrap modulo
2^64 (`Counters.Add`). The cursors are C `int`, but their values stay below
1024, so they never wrap.

Files:

- `ring.dfy`: cursor arithmetic (`Next`, `Dist`, `Slot`).
- `counters.dfy`: 64-bit wrapping counters.
- `wrappers.dfy`: `Option`, used for a null slot and for "no packet".
- `link.dfy`: the link state, its invariant `Valid`, `Occupancy`, the queue
  view `Contents`, and `Push`/`Pop`.
- `laws.dfy`: what one push or pop does, field by field and on the queue,
  and the invariant tying the counters to the queue.
- `trace.dfy`: runs of many pushes and pops. It covers FIFO order with no
  loss or duplication, drop accounting, counter tracking, idempotent empty
  pops, and the fill-then-drain scenario.
- `buffer.dfy`: the same link as a mutable object with a fixed 1024-slot
  array. Its in-place `Transmit`/`Receive` methods are proved to refine
  `Push`/`Pop`.

## Model

| member | source | states |
|---|---|---|
| Ring.Next | src/core/link.h:3 | a cursor advance stays in [0, LINK_RING_SIZE), always moves, and wraps to slot 0 exactly from slot 1023 |
| Ring.Dist | src/core/link.h:3-4 | the forward distance between two cursors lies in [0, LINK_MAX_PACKETS] and is zero exactly when they coincide |
| Counters.Add | src/core/link.h:20 | adding to an unsigned long counter raises it by the amount modulo 2^64 |
| CoreLink.New | src/core/link.h:8-27 | a zeroed link satisfies the invariant and holds no packet |
| CoreLink.Occupancy | src/core/link.h:3-4 | the number of queued packets never exceeds LINK_MAX_PACKETS and is zero exactly when read == write |
| CoreLink.Push | src/core/link.h:12-26 | a push keeps the invariant: cursors in [0, LINK_RING_SIZE), so packets[read] and packets[write] are in bounds; every slot in [read, write) holds a packet; the cached lread stays an earlier value of read |
| CoreLink.Pop | src/core/link.h:12-26 | a pop keeps the same invariant, including the cached lwrite staying an earlier value of write |
| LinkLaws.EmptyFullDistinct | src/core/link.h:3-15 | empty iff occupancy is 0, full iff occupancy is LINK_MAX_PACKETS, and never both |
| LinkLaws.CachesConservative | src/core/link.h:18-23 | the producer's cached lread never underestimates occupancy and the consumer's cached lwrite never overestimates it; at true full lread == read and at true empty lwrite == read |
| LinkLaws.PushFull | src/core/link.h:22-24 | a push on a full link changes no cursor and no slot; only txdrop goes up, by exactly one |
| LinkLaws.PushRoom | src/core/link.h:12-26 | a push with room stores the handle at packets[write], advances write by one, raises occupancy, txpackets and txbytes, leaves read, every other slot and the consumer group unchanged, and appends the handle to the queue |
| LinkLaws.PopEmpty | src/core/link.h:12-20 | a pop on an empty link changes no field and reports no packet |
| LinkLaws.PopNonEmpty | src/core/link.h:12-26 | a pop on a non-empty link returns packets[read], the queue head; it advances read by one, lowers occupancy and raises rxpackets and rxbytes; write, the slots and the producer group are unchanged; the queue loses its head |
| LinkLaws.NewAccounted | src/core/link.h:18-24 | on a new link, txpackets - rxpackets and txbytes - rxbytes match the empty queue |
| LinkLaws.PushAccounted | src/core/link.h:18-24 | after a push, txpackets - rxpackets still equals the occupancy, and txbytes - rxbytes still equals the queued bytes (mod 2^64) |
| LinkLaws.PopAccounted | src/core/link.h:18-24 | after a pop, the same two counter identities still hold |
| LinkTrace.Exec | src/core/link.h:12-26 | every link reached by any sequence of pushes and pops from a valid one satisfies the invariant |
| LinkTrace.Fifo | src/core/link.h:9-15 | over any run, the delivered packets followed by those still queued equal the initially queued packets followed by the accepted ones, in push order: FIFO with no loss and no duplication |
| LinkTrace.AttemptsSplit | src/core/link.h:22-24 | every push attempt is either accepted or dropped |
| LinkTrace.CountersTrack | src/core/link.h:18-24 | over any run, txpackets, txbytes, txdrop, rxpackets and rxbytes advance (mod 2^64) by exactly the accepted, dropped and delivered packets and bytes |
| LinkTrace.NewCounters | src/core/link.h:20-24 | on a new link the counters equal the accepted, dropped and delivered counts modulo 2^64 |
| LinkTrace.Drained | src/core/link.h:18-24 | once a run from a new link has emptied it, the delivered packets are exactly the accepted ones, and delivered plus dropped equals the push attempts |
| LinkTrace.ReceiveEmpty | src/core/link.h:12-20 | any number of pops on an empty link change nothing and deliver nothing |
| LinkTrace.TransmitRoom | src/core/link.h:3-4 | pushes that fit within LINK_MAX_PACKETS are all accepted, none dropped, and are appended to the queue |
| LinkTrace.ReceiveQueued | src/core/link.h:12-15 | k pops on a link holding at least k packets deliver the k oldest, in order, and leave the rest queued |
| LinkTrace.FillNew | src/core/link.h:3-4 | 1023 pushes into a new link are all accepted and leave it full |
| LinkTrace.DropOne | src/core/link.h:22-24 | a single push on a full link is recorded as a drop, and only txdrop changes |
| LinkBuffer.RingLink.Transmit | src/core/link.h:22-26 | the in-place push on the fixed 1024-slot array does exactly what CoreLink.Push does; every array access is in bounds |
| LinkBuffer.RingLink.Receive | src/core/link.h:18-26 | the in-place pop does exactly what CoreLink.Pop does and returns the same packet |
| LinkTrace.FillAndDrain | src/core/link.h:3-4 | on a new link: 1023 pushes succeed; one more is dropped (txdrop = 1); 1023 pops return the handles in push order and empty the ring; a further pop finds nothing |

## Left out

- `src/program/vita/sodium.h` is not part of this model. It only declares entry points of the external libsodium library and has no bodies.
- `dtime`, the activity timestamp (src/core/link.h:16), is left out because it depends on a clock.
- The cache-line padding `pad0`–`pad3` and `CACHE_LINE` are left out. They fix the physical layout and have no behaviour.
- Concurrency is not modelled. There are no memory-ordering rules between the producer and consumer contexts. Push and pop are atomic, sequential steps.
- Packet contents, allocation and freeing are not modelled. A handle is an opaque number with a length in bytes. The packet on a dropped push goes back to the caller.
- Batching is not modelled. `nread` and `nwrite` are each side's private copy of its own cursor, and the model publishes that copy on every push or pop.
- Monitoring values derived from the counters are left out: utilisation as a percentage (floating point) and time since the last activity (a clock).
- The push and pop code is not part of this model; `src/core/link.h` holds only the layout. Push and pop are modelled as the standard ring-buffer operations that the header's comment refers to.
