/**
 The driver's DMA queue: requests of many processes, one transfer in the hardware at a time.
 The state machine lets every pending piece of work run at any moment, so its runs are all the
 interleavings of the callers, the hardware, the board's own writes and the completion work.
 The theorem is that every run amounts to serving the requests one at a time, in queue order.
 */
module DmaQueue {
  import opened Common

  const DMA_BUFFER_SIZE := 4096

  /** A request; `id` is its place in the order in which requests entered the queue. */
  datatype Packet = Packet(id: nat, read: bool, off: nat, data: seq<byte>)
  {
    function Count(): nat { |data| }
  }

  /** What happened to the dual-port RAM: a request's transfer, or the board writing on its own. */
  datatype Access = Transferred(p: Packet) | BoardWrote(at: nat, b: byte)

  // ---- Serving requests one at a time ----

  predicate InMemory(p: Packet, mem: seq<byte>) { 0 < p.Count() <= DMA_BUFFER_SIZE && p.off + p.Count() <= |mem| }

  function Moved(p: Packet, mem: seq<byte>): seq<byte>
    requires InMemory(p, mem)
  {
    if p.read then mem[p.off..p.off + p.Count()] else p.data
  }

  /** The request as its caller gets it back. */
  function Outcome(p: Packet, mem: seq<byte>): Packet
    requires InMemory(p, mem)
  {
    p.(data := Moved(p, mem))
  }

  function Apply(mem: seq<byte>, a: Access): (r: seq<byte>)
    ensures |r| == |mem|
  {
    match a
    case Transferred(p) => if p.read || !InMemory(p, mem) then mem else Splice(mem, p.off, p.data)
    case BoardWrote(at, b) => if at < |mem| then mem[at := b] else mem
  }

  function Replay(mem: seq<byte>, log: seq<Access>): (r: seq<byte>)
    ensures |r| == |mem|
  {
    if log == [] then mem else Apply(Replay(mem, log[..|log| - 1]), log[|log| - 1])
  }

  function Requests(log: seq<Access>): seq<Packet>
  {
    if log == [] then []
    else
      var before := Requests(log[..|log| - 1]);
      match log[|log| - 1]
      case Transferred(p) => before + [p]
      case BoardWrote(_, _) => before
  }

  lemma LogGrows(mem: seq<byte>, log: seq<Access>, a: Access)
    ensures Replay(mem, log + [a]) == Apply(Replay(mem, log), a)
    ensures Requests(log + [a]) == if a.Transferred? then Requests(log) + [a.p] else Requests(log)
  {
    assert (log + [a])[..|log|] == log;
  }

  // ---- The device and its steps ----

  datatype Device = Device(
    queue: seq<Packet>, size: nat,
    toStart: seq<Packet>,                    // calls of StartIo that are due
    hardware: Option<Packet>,                // the transfer programmed into the hardware
    toEnd: nat,                              // completions whose EndIo has not begun
    toRemove: seq<Packet>,                   // EndIo calls that have copied but not yet removed
    ring0: seq<byte>,                        // the one buffer the hardware uses
    dpram: seq<byte>,
    requests: seq<Packet>,                   // every request ever queued
    started: seq<nat>,                       // ids, in the order in which transfers were started
    log: seq<Access>,
    place: seq<nat>,                         // the i-th transfer's place in the log
    completed: seq<Packet>)                  // requests handed back, in order

  datatype Event =
    | Enqueue(read: bool, off: nat, data: seq<byte>)
    | Start(i: nat)
    | Transfer
    | BoardWrite(at: nat, b: byte)
    | EndCopy
    | EndRemove(i: nat)

  /** The callers are held to what ExcRead and ExcWrite let through; the rest is pending work. */
  predicate Enabled(d: Device, e: Event)
  {
    match e
    case Enqueue(_, off, data) => 0 < |data| <= DMA_BUFFER_SIZE && off + |data| <= |d.dpram|
    case Start(i) => i < |d.toStart|
    case Transfer => d.hardware.Some?
    case BoardWrite(_, _) => true
    case EndCopy => 0 < d.toEnd
    case EndRemove(i) => i < |d.toRemove|
  }

  predicate Fits(d: Device, p: Packet) { InMemory(p, d.dpram) && p.Count() <= |d.ring0| }

  function Without(queue: seq<Packet>, id: nat): seq<Packet>
  {
    if queue == [] then [] else if queue[0].id == id then queue[1..] else [queue[0]] + Without(queue[1..], id)
  }

  /** Queue the request and test, under the lock, whether the queue was empty. */
  function EnqueueStep(d: Device, read: bool, off: nat, data: seq<byte>): Device
  {
    var p := Packet(|d.requests|, read, off, data);
    d.(queue := d.queue + [p], size := d.size + 1, requests := d.requests + [p],
       toStart := if d.queue == [] then d.toStart + [p] else d.toStart)
  }

  /** What StartIo leaves in the buffer. */
  function Filled(ring0: seq<byte>, p: Packet): seq<byte>
    requires p.Count() <= |ring0|
  {
    if p.read then ring0 else Splice(ring0, 0, p.data)
  }

  function StartStep(d: Device, i: nat): Device
    requires i < |d.toStart| && Fits(d, d.toStart[i])
  {
    var p := d.toStart[i];
    d.(toStart := d.toStart[..i] + d.toStart[i + 1..], ring0 := Filled(d.ring0, p),
       hardware := Some(p), started := d.started + [p.id])
  }

  /** The hardware moves the bytes and interrupts, which schedules EndIo. */
  function TransferStep(d: Device): Device
    requires d.hardware.Some? && Fits(d, d.hardware.value)
  {
    var p := d.hardware.value;
    d.(hardware := None, toEnd := d.toEnd + 1,
       ring0 := if p.read then Splice(d.ring0, 0, d.dpram[p.off..p.off + p.Count()]) else d.ring0,
       dpram := if p.read then d.dpram else Splice(d.dpram, p.off, d.ring0[..p.Count()]),
       place := d.place + [|d.log|], log := d.log + [Transferred(p)])
  }

  function BoardStep(d: Device, at: nat, b: byte): Device
  {
    d.(dpram := if at < |d.dpram| then d.dpram[at := b] else d.dpram, log := d.log + [BoardWrote(at, b)])
  }

  /** What the packet at the head of the queue takes from the buffer. */
  function Taken(ring0: seq<byte>, p: Packet): Packet
    requires p.Count() <= |ring0|
  {
    if p.read then p.(data := ring0[..p.Count()]) else p
  }

  /** EndIo, first half: for a read, the packet at the head of the list takes the buffer. */
  function EndCopyStep(d: Device): Device
    requires 0 < d.toEnd && (d.queue == [] || Fits(d, d.queue[0]))
  {
    if d.queue == [] then d.(toEnd := d.toEnd - 1)
    else d.(toEnd := d.toEnd - 1, toRemove := d.toRemove + [Taken(d.ring0, d.queue[0])])
  }

  /** EndIo, second half: under the lock remove that packet; then start the head of what is left. */
  function EndRemoveStep(d: Device, i: nat): Device
    requires i < |d.toRemove|
  {
    var p := d.toRemove[i];
    var rest := Without(d.queue, p.id);
    d.(toRemove := d.toRemove[..i] + d.toRemove[i + 1..],
       queue := rest, size := if d.size == 0 then 0 else d.size - 1, completed := d.completed + [p],
       toStart := if rest == [] then d.toStart else d.toStart + [rest[0]])
  }

  predicate Runnable(d: Device, e: Event)
  {
    && Enabled(d, e)
    && match e
       case Start(i) => Fits(d, d.toStart[i])
       case Transfer => Fits(d, d.hardware.value)
       case EndCopy => d.queue == [] || Fits(d, d.queue[0])
       case _ => true
  }

  function Next(d: Device, e: Event): Device
    requires Runnable(d, e)
  {
    match e
    case Enqueue(read, off, data) => EnqueueStep(d, read, off, data)
    case Start(i) => StartStep(d, i)
    case Transfer => TransferStep(d)
    case BoardWrite(at, b) => BoardStep(d, at, b)
    case EndCopy => EndCopyStep(d)
    case EndRemove(i) => EndRemoveStep(d, i)
  }

  function Init(dpram: seq<byte>, ring0: seq<byte>): Device
  {
    Device([], 0, [], None, 0, [], ring0, dpram, [], [], [], [], [])
  }

  // ---- The invariant ----

  /** How many pieces of work are pending for the request being served. */
  function InFlight(d: Device): nat
  {
    |d.toStart| + (if d.hardware.Some? then 1 else 0) + d.toEnd + |d.toRemove|
  }

  predicate HeadStarted(d: Device) { d.hardware.Some? || HeadMoved(d) }

  predicate HeadMoved(d: Device) { 0 < d.toEnd || d.toRemove != [] }

  function One(b: bool): nat { if b then 1 else 0 }

  /** The queue is what has been requested and not yet handed back; the size says how much. */
  ghost predicate Queued(d: Device)
  {
    && |d.ring0| == DMA_BUFFER_SIZE
    && d.size == |d.queue| && |d.completed| <= |d.requests|
    && d.queue == d.requests[|d.completed|..]
    && forall i :: 0 <= i < |d.requests| ==> d.requests[i].id == i && InMemory(d.requests[i], d.dpram)
  }

  /** At most one request is being served, and it is the head of the queue. */
  ghost predicate Serving(d: Device)
  {
    && InFlight(d) == One(d.queue != [])
    && (d.toStart != [] ==> d.toStart[0] == d.queue[0])
    && (d.hardware.Some? ==> d.hardware.value == d.queue[0])
    && |d.started| == |d.completed| + One(HeadStarted(d))
    && forall i :: 0 <= i < |d.started| ==> d.started[i] == i
  }

  function MemoryAt(origin: seq<byte>, log: seq<Access>, k: nat): (r: seq<byte>)
    ensures |r| == |origin|
  {
    Replay(origin, if k <= |log| then log[..k] else log)
  }

  lemma PastStays(origin: seq<byte>, log: seq<Access>, a: Access, k: nat)
    requires k <= |log|
    ensures MemoryAt(origin, log + [a], k) == MemoryAt(origin, log, k)
  {
    assert (log + [a])[..k] == log[..k];
  }

  /** The memory is the log replayed, and the transfers in the log are the requests in order. */
  ghost predicate Logged(d: Device, origin: seq<byte>)
  {
    && d.dpram == Replay(origin, d.log)
    && |d.place| == |d.completed| + One(HeadMoved(d)) <= |d.requests|
    && Requests(d.log) == d.requests[..|d.place|]
    && forall i :: 0 <= i < |d.place| ==> d.place[i] < |d.log| && d.log[d.place[i]] == Transferred(d.requests[i])
  }

  /** What request i is given, had it been served alone at its place in the log. */
  function Deserved(d: Device, origin: seq<byte>, i: nat): Packet
    requires i < |d.requests| && i < |d.place| && InMemory(d.requests[i], origin)
  {
    Outcome(d.requests[i], MemoryAt(origin, d.log, d.place[i]))
  }

  /** Whatever is on its way back to a caller is what the caller's own transfer moved. */
  ghost predicate OwnBytes(d: Device, origin: seq<byte>)
    requires Queued(d) && Serving(d) && Logged(d, origin)
  {
    && (d.hardware.Some? ==> Filled(d.ring0, d.queue[0]) == d.ring0)
    && (HeadMoved(d) ==> Taken(d.ring0, d.queue[0]) == Deserved(d, origin, |d.completed|))
    && (d.toRemove != [] ==> d.toRemove[0] == Deserved(d, origin, |d.completed|))
    && forall i :: 0 <= i < |d.completed| ==> d.completed[i] == Deserved(d, origin, i)
  }

  ghost predicate Inv(d: Device, origin: seq<byte>)
  {
    Queued(d) && Serving(d) && Logged(d, origin) && OwnBytes(d, origin)
  }

  /** What is written later does not change what earlier transfers deserve. */
  lemma DeservedStays(d: Device, d': Device, origin: seq<byte>, a: Access)
    requires Logged(d, origin) && d'.log == d.log + [a] && d'.requests == d.requests && d.place <= d'.place
    requires forall i :: 0 <= i < |d.requests| ==> InMemory(d.requests[i], origin)
    ensures forall i :: 0 <= i < |d.place| ==> Deserved(d', origin, i) == Deserved(d, origin, i)
  {
    hide Replay, Requests, MemoryAt;
    forall i | 0 <= i < |d.place| ensures Deserved(d', origin, i) == Deserved(d, origin, i) {
      PastStays(origin, d.log, a, d.place[i]);
    }
  }

  lemma NowIsLast(origin: seq<byte>, log: seq<Access>, a: Access)
    ensures MemoryAt(origin, log + [a], |log|) == Replay(origin, log)
  {
    assert (log + [a])[..|log|] == log;
  }

  lemma EnqueueKeepsInv(d: Device, origin: seq<byte>, read: bool, off: nat, data: seq<byte>)
    requires Inv(d, origin) && Enabled(d, Enqueue(read, off, data))
    ensures Inv(EnqueueStep(d, read, off, data), origin)
  {
    hide Replay, Requests, MemoryAt;
    var d' := EnqueueStep(d, read, off, data);
    assert d'.requests[..|d.place|] == d.requests[..|d.place|];
    forall i | 0 <= i < |d.place| ensures Deserved(d', origin, i) == Deserved(d, origin, i) {
    }
  }

  lemma StartKeepsInv(d: Device, origin: seq<byte>, i: nat)
    requires Inv(d, origin) && Enabled(d, Start(i))
    ensures Runnable(d, Start(i)) && Inv(StartStep(d, i), origin)
  {
    hide Replay, Requests, MemoryAt;
  }

  lemma TransferKeepsInv(d: Device, origin: seq<byte>)
    requires Inv(d, origin) && Enabled(d, Transfer)
    ensures Runnable(d, Transfer) && Inv(TransferStep(d), origin)
  {
    hide Replay, Requests, MemoryAt, Deserved, Taken;
    var d', p := TransferStep(d), d.queue[0];
    LogGrows(origin, d.log, Transferred(p));
    DeservedStays(d, d', origin, Transferred(p));
    NowIsLast(origin, d.log, Transferred(p));
    TransferGivesHead(d, origin);
  }

  /** The transfer leaves in the buffer what its own request deserves, and in memory what it asks. */
  lemma TransferGivesHead(d: Device, origin: seq<byte>)
    requires Inv(d, origin) && Enabled(d, Transfer)
    ensures Runnable(d, Transfer)
    ensures var d', p := TransferStep(d), d.queue[0];
      && d'.dpram == Apply(d.dpram, Transferred(p))
      && Taken(d'.ring0, p) == Outcome(p, d.dpram)
      && |d.place| == |d.completed| && d'.place[|d.completed|] == |d.log|
      && Deserved(d', origin, |d.completed|) == Outcome(p, d.dpram)
  {
    hide Replay, Requests, MemoryAt;
    var p := d.queue[0];
    NowIsLast(origin, d.log, Transferred(p));
    if !p.read { assert d.ring0[..p.Count()] == p.data; }
  }

  lemma BoardKeepsInv(d: Device, origin: seq<byte>, at: nat, b: byte)
    requires Inv(d, origin)
    ensures Inv(BoardStep(d, at, b), origin)
  {
    hide Replay, Requests, MemoryAt;
    LogGrows(origin, d.log, BoardWrote(at, b));
    DeservedStays(d, BoardStep(d, at, b), origin, BoardWrote(at, b));
  }

  lemma EndCopyKeepsInv(d: Device, origin: seq<byte>)
    requires Inv(d, origin) && Enabled(d, EndCopy)
    ensures Runnable(d, EndCopy) && Inv(EndCopyStep(d), origin)
  {
    hide Replay, Requests, MemoryAt;
  }

  lemma EndRemoveKeepsInv(d: Device, origin: seq<byte>, i: nat)
    requires Inv(d, origin) && Enabled(d, EndRemove(i))
    ensures Inv(EndRemoveStep(d, i), origin)
  {
    hide Replay, Requests, MemoryAt;
  }

  // ---- Every run ----

  lemma StepKeepsInv(d: Device, origin: seq<byte>, e: Event)
    requires Inv(d, origin) && Enabled(d, e)
    ensures Runnable(d, e) && Inv(Next(d, e), origin)
  {
    hide Inv;
    match e
    case Enqueue(read, off, data) => EnqueueKeepsInv(d, origin, read, off, data);
    case Start(i) => StartKeepsInv(d, origin, i);
    case Transfer => TransferKeepsInv(d, origin);
    case BoardWrite(at, b) => BoardKeepsInv(d, origin, at, b);
    case EndCopy => EndCopyKeepsInv(d, origin);
    case EndRemove(i) => EndRemoveKeepsInv(d, origin, i);
  }

  /** A schedule; an event that is not due when its turn comes does nothing. */
  function Run(d: Device, events: seq<Event>): Device
    decreases |events|
  {
    if events == [] then d
    else Run(if Runnable(d, events[0]) then Next(d, events[0]) else d, events[1..])
  }

  lemma {:induction false} RunKeepsInv(d: Device, origin: seq<byte>, events: seq<Event>)
    requires Inv(d, origin)
    ensures Inv(Run(d, events), origin)
    decreases |events|
  {
    hide Inv, Next, Runnable;
    if events != [] {
      var e := events[0];
      if Runnable(d, e) {
        RunnableIsEnabled(d, e);
        StepKeepsInv(d, origin, e);
        RunKeepsInv(Next(d, e), origin, events[1..]);
      } else {
        RunKeepsInv(d, origin, events[1..]);
      }
    }
  }

  lemma RunnableIsEnabled(d: Device, e: Event)
    requires Runnable(d, e)
    ensures Enabled(d, e)
  {
  }

  /**
   Whatever the interleaving: the size is the queue's length, the hardware only ever holds the
   head, requests start once and are handed back once in queue order, and each is handed back what
   it would have got had the transfers been made one at a time, in order, between the board's own
   writes.  Nothing due is ever out of bounds, and a waiting request always has work due for it.
   */
  lemma {:induction false} EveryRunIsSerial(dpram: seq<byte>, ring0: seq<byte>, events: seq<Event>)
    requires |ring0| == DMA_BUFFER_SIZE
    ensures var d := Run(Init(dpram, ring0), events);
      && |d.completed| <= |d.place| <= |d.started| <= |d.completed| + 1 && |d.started| <= |d.requests|
      && d.size == |d.queue| && d.queue == d.requests[|d.completed|..]
      && (d.hardware.Some? ==> d.queue != [] && d.hardware.value == d.queue[0])
      && (forall i :: 0 <= i < |d.started| ==> d.started[i] == i)
      && d.dpram == Replay(dpram, d.log) && Requests(d.log) == d.requests[..|d.place|]
      && (forall i :: 0 <= i < |d.completed| ==>
            && d.place[i] < |d.log| && d.log[d.place[i]] == Transferred(d.requests[i])
            && InMemory(d.requests[i], dpram)
            && d.completed[i] == Outcome(d.requests[i], Replay(dpram, d.log[..d.place[i]])))
      && (forall e :: Enabled(d, e) ==> Runnable(d, e))
      && (d.queue != [] ==>
            Enabled(d, Start(0)) || Enabled(d, Transfer) || Enabled(d, EndCopy) || Enabled(d, EndRemove(0)))
  {
    hide Run, Next, Requests, Replay;
    assert Inv(Init(dpram, ring0), dpram) by { EmptyLog(dpram); }
    RunKeepsInv(Init(dpram, ring0), dpram, events);
    var d := Run(Init(dpram, ring0), events);
    forall e | Enabled(d, e) ensures Runnable(d, e) { StepKeepsInv(d, dpram, e); }
  }

  lemma EmptyLog(origin: seq<byte>)
    ensures Replay(origin, []) == origin && Requests([]) == []
  {
  }

  /** A call of EndIo that no completed transfer asked for, run through from top to bottom. */
  function ExtraEndIo(d: Device): Device
    requires d.queue == [] || Fits(d, d.queue[0])
  {
    if d.queue == [] then d
    else
      var copied := EndCopyStep(d.(toEnd := d.toEnd + 1));
      EndRemoveStep(copied, |copied.toRemove| - 1)
  }

  /**
   Such a call, which the driver also offers as an ioctl, leaves one piece of work too many: it does
   nothing, and the queue goes on being served in order, exactly when nobody waits.
   */
  lemma ExtraEndIoIsSafeWhen(d: Device, origin: seq<byte>)
    requires Inv(d, origin)
    ensures d.queue == [] || Fits(d, d.queue[0])
    ensures d.queue == [] ==> ExtraEndIo(d) == d
    ensures d.queue != [] ==> InFlight(ExtraEndIo(d)) == One(ExtraEndIo(d).queue != []) + 1
    ensures Inv(ExtraEndIo(d), origin) <==> d.queue == []
  {
    hide Replay, Requests, MemoryAt;
  }

  /** What the request at the head has been given, or would be if it were served now. */
  function Due(d: Device, origin: seq<byte>): Packet
    requires d.queue != [] && |d.completed| < |d.requests| && InMemory(d.queue[0], d.dpram)
    requires InMemory(d.requests[|d.completed|], origin) && (HeadMoved(d) ==> |d.completed| < |d.place|)
  {
    if HeadMoved(d) then Deserved(d, origin, |d.completed|) else Outcome(d.queue[0], d.dpram)
  }

  /**
   What the waiting caller sees of it: its request is handed back, with the right bytes just if it is a
   write, or its transfer has been made, or the buffer happens to hold them; and it is handed back
   before its bytes were moved, which for a write means before memory has them, just if the transfer
   has not been made.
   */
  lemma ExtraEndIoHandsBack(d: Device, origin: seq<byte>)
    requires Inv(d, origin) && d.queue != []
    ensures var p := d.queue[0];
      && Fits(d, p) && |d.completed| < |d.requests| && InMemory(d.requests[|d.completed|], origin)
      && (HeadMoved(d) ==> |d.completed| < |d.place|)
      && var d' := ExtraEndIo(d);
      && |d'.completed| == |d.completed| + 1 && d'.completed[|d.completed|].id == p.id
      && (d'.completed[|d.completed|] == Due(d, origin) <==>
          !p.read || HeadMoved(d) || d.ring0[..p.Count()] == d.dpram[p.off..p.off + p.Count()])
      && (Transferred(p) in d'.log <==> HeadMoved(d))
  {
    hide Replay, Requests, MemoryAt;
    var p, k := d.queue[0], |d.completed|;
    if HeadMoved(d) {
      assert d.log[d.place[k]] == Transferred(p);
    } else if Transferred(p) in d.log {
      LoggedIsRequested(d.log, p);
    }
  }

  lemma {:induction false} LoggedIsRequested(log: seq<Access>, p: Packet)
    requires Transferred(p) in log
    ensures p in Requests(log)
  {
    var front := log[..|log| - 1];
    if log[|log| - 1] != Transferred(p) {
      assert Transferred(p) in front;
      LoggedIsRequested(front, p);
    }
  }

  // ---- The driver's code, step by step ----

  /** StartIo's loop. */
  method FillBuffer(ring0: array<byte>, p: Packet)
    requires p.Count() <= ring0.Length
    modifies ring0
    ensures ring0[..] == Filled(old(ring0[..]), p)
  {
    if !p.read {
      var k := 0;
      while k < p.Count()
        invariant 0 <= k <= p.Count() <= ring0.Length
        invariant ring0[..k] == p.data[..k] && ring0[k..] == old(ring0[k..])
      {
        ring0[k] := p.data[k];
        k := k + 1;
      }
    }
  }

  /** What the hardware does with a programmed transfer. */
  method MoveBytes(ring0: array<byte>, dpram: array<byte>, p: Packet)
    requires ring0 != dpram && p.Count() <= ring0.Length && p.off + p.Count() <= dpram.Length
    modifies ring0, dpram
    ensures p.read ==> dpram[..] == old(dpram[..])
    ensures p.read ==> ring0[..] == Splice(old(ring0[..]), 0, old(dpram[..])[p.off..p.off + p.Count()])
    ensures !p.read ==> ring0[..] == old(ring0[..])
    ensures !p.read ==> dpram[..] == Splice(old(dpram[..]), p.off, old(ring0[..])[..p.Count()])
  {
    if p.read {
      forall k | 0 <= k < p.Count() { ring0[k] := dpram[p.off + k]; }
    } else {
      forall k | 0 <= k < p.Count() { dpram[p.off + k] := ring0[k]; }
    }
  }

  /** EndIo's loop. */
  method TakeBuffer(ring0: array<byte>, p: Packet) returns (taken: Packet)
    requires p.Count() <= ring0.Length
    ensures taken == Taken(ring0[..], p)
  {
    var internal: seq<byte> := p.data;
    if p.read {
      var k := 0;
      while k < p.Count()
        invariant 0 <= k <= p.Count() == |internal| && internal[..k] == ring0[..k]
      {
        internal := internal[k := ring0[k]];
        k := k + 1;
      }
    }
    taken := p.(data := internal);
  }

  class ExcDevice {
    const supportsDMA: bool
    const ring0: array<byte>
    const dpram: array<byte>
    var queue: seq<Packet>
    var size: nat
    var hardware: Option<Packet>
    /** Stands for the packets' addresses, which tell them apart. */
    var issued: nat
    ghost const origin: seq<byte>
    /** The state above; it also says which calls are due. */
    ghost var work: Device

    ghost predicate Valid()
      reads this, ring0, dpram
    {
      && ring0 != dpram && Inv(work, origin)
      && work.queue == queue && work.size == size && |work.requests| == issued && work.hardware == hardware
      && work.ring0 == ring0[..] && work.dpram == dpram[..]
    }

    constructor (supportsDMA: bool, dpram: array<byte>)
      ensures Valid() && fresh(ring0) && this.dpram == dpram && this.supportsDMA == supportsDMA
      ensures work == Init(dpram[..], ring0[..])
    {
      this.supportsDMA, this.dpram := supportsDMA, dpram;
      ring0 := new byte[DMA_BUFFER_SIZE];
      queue, size, hardware, issued := [], 0, None, 0;
      origin := dpram[..];
      new;
      work := Init(dpram[..], ring0[..]);
    }

    /** ExcRead and ExcWrite up to the lock's release; `startNow` is what the caller does next. */
    method QueueRequest(read: bool, off: nat, data: seq<byte>) returns (accepted: bool, startNow: bool)
      requires Valid()
      modifies this
      ensures Valid()
      ensures accepted <==> supportsDMA && 0 < |data| <= 4096 && off + |data| <= dpram.Length
      ensures accepted ==> work == Next(old(work), Enqueue(read, off, data))
      ensures accepted ==> work.queue == old(work.queue) + [Packet(|old(work.requests)|, read, off, data)]
      ensures accepted ==> (startNow <==> old(work.queue) == [])
      ensures accepted ==> (startNow <==> |work.toStart| == |old(work).toStart| + 1)
      ensures !accepted ==> !startNow && work == old(work)
    {
      hide Inv, Replay, Requests, Fits;
      accepted, startNow := false, false;
      if !supportsDMA || |data| == 0 || |data| > DMA_BUFFER_SIZE || |data| + off > dpram.Length { return; }
      StepKeepsInv(work, origin, Enqueue(read, off, data));
      accepted, startNow := true, queue == [];
      queue, size, issued := queue + [Packet(issued, read, off, data)], size + 1, issued + 1;
      work := Next(work, Enqueue(read, off, data));
    }

    /** Fills the buffer for a write, then programs and starts the hardware. */
    method StartIo(ghost i: nat, p: Packet)
      requires Valid() && i < |work.toStart| && p == work.toStart[i]
      modifies this, ring0
      ensures Valid() && Runnable(old(work), Start(i)) && work == Next(old(work), Start(i))
    {
      hide Inv, Replay, Requests;
      StepKeepsInv(work, origin, Start(i));
      FillBuffer(ring0, p);
      hardware := Some(p);
      work := Next(work, Start(i));
    }

    /** What the board does with a programmed transfer; its interrupt makes an EndIo due. */
    method HardwareTransfers()
      requires Valid() && hardware.Some?
      modifies this, ring0, dpram
      ensures Valid() && Runnable(old(work), Transfer) && work == Next(old(work), Transfer)
    {
      hide Inv, Replay, Requests;
      StepKeepsInv(work, origin, Transfer);
      var p := hardware.value;
      MoveBytes(ring0, dpram, p);
      hardware := None;
      work := Next(work, Transfer);
    }

    /** EndIo down to the lock. */
    method EndIoCopies() returns (taken: Option<Packet>)
      requires Valid() && 0 < work.toEnd
      modifies this
      ensures Valid() && Runnable(old(work), EndCopy) && work == Next(old(work), EndCopy)
      ensures taken == if old(queue) == [] then None else Some(work.toRemove[|work.toRemove| - 1])
    {
      hide Inv, Replay, Requests;
      StepKeepsInv(work, origin, EndCopy);
      taken := None;
      if queue != [] {
        var p := TakeBuffer(ring0, queue[0]);
        taken := Some(p);
      }
      work := Next(work, EndCopy);
    }

    /** EndIo from the lock on; `next` is the packet it starts. */
    method EndIoRemoves(ghost i: nat, p: Packet) returns (next: Option<Packet>)
      requires Valid() && i < |work.toRemove| && p == work.toRemove[i]
      modifies this
      ensures Valid() && work == Next(old(work), EndRemove(i))
      ensures next == if queue == [] then None else Some(work.toStart[|work.toStart| - 1])
    {
      hide Inv, Replay, Requests;
      StepKeepsInv(work, origin, EndRemove(i));
      assert size > 0 by { SomethingToRemove(work, origin); }
      queue := Without(queue, p.id);
      size := size - 1;
      next := if queue == [] then None else Some(queue[0]);
      work := Next(work, EndRemove(i));
    }
  }

  lemma SomethingToRemove(d: Device, origin: seq<byte>)
    requires Inv(d, origin) && d.toRemove != []
    ensures d.size > 0
  {
  }

  // ---- The 807 board, which waits for each transfer inside StartIo ----

  ghost predicate AllFit(queue: seq<Packet>, mem: seq<byte>)
  {
    forall i :: 0 <= i < |queue| ==> InMemory(queue[i], mem)
  }

  /** The requests of a queue, served in order. */
  ghost function Served(queue: seq<Packet>, mem: seq<byte>): seq<Packet>
    requires AllFit(queue, mem)
    decreases |queue|
  {
    if queue == [] then []
    else [Outcome(queue[0], mem)] + Served(queue[1..], Apply(mem, Transferred(queue[0])))
  }

  function MemoryAfter(queue: seq<Packet>, mem: seq<byte>): (r: seq<byte>)
    ensures |r| == |mem|
    decreases |queue|
  {
    if queue == [] then mem else MemoryAfter(queue[1..], Apply(mem, Transferred(queue[0])))
  }

  class Board807 {
    const ring0: array<byte>
    var mem: seq<byte>
    var queue: seq<Packet>
    var size: nat
    var completed: seq<Packet>
    /** Transfers that had not finished when the wait for them ran out. */
    ghost var late: nat

    ghost predicate Valid()
      reads this
    {
      ring0.Length == DMA_BUFFER_SIZE && size == |queue| && AllFit(queue, mem)
    }

    constructor (mem: seq<byte>, queue: seq<Packet>)
      requires AllFit(queue, mem)
      ensures Valid() && fresh(ring0) && this.mem == mem && this.queue == queue
      ensures completed == [] && late == 0
    {
      ring0 := new byte[DMA_BUFFER_SIZE];
      this.mem, this.queue, size, completed, late := mem, queue, |queue|, [], 0;
    }

    /** Fills the buffer, programs the transfer and polls for its end up to a hundred times. */
    method ProgramAndWait(p: Packet) returns (finished: bool)
      requires Valid() && InMemory(p, mem)
      modifies this`mem, ring0
      ensures |mem| == |old(mem)| && (!finished ==> mem == old(mem))
      ensures finished ==> mem == Apply(old(mem), Transferred(p)) && Taken(ring0[..], p) == Outcome(p, old(mem))
    {
      FillBuffer(ring0, p);
      var polls := 0;
      finished := false;
      while polls < 100 && !finished
        invariant 0 <= polls <= 100
      {
        finished := *;
        polls := polls + 1;
      }
      if finished && p.read {
        forall k | 0 <= k < p.Count() { ring0[k] := mem[p.off + k]; }
        assert ring0[..p.Count()] == mem[p.off..p.off + p.Count()];
      } else if finished {
        assert ring0[..p.Count()] == p.data;
        mem := Splice(mem, p.off, ring0[..p.Count()]);
      }
    }

    /** Starts a transfer, waits for it and then ends it itself. */
    method StartIo(p: Packet)
      requires Valid() && queue != [] && p == queue[0]
      modifies this, ring0
      ensures Valid() && queue == [] && late >= old(late)
      ensures |completed| == |old(completed)| + |old(queue)| && old(completed) <= completed
      ensures forall i :: 0 <= i < |old(queue)| ==> completed[|old(completed)| + i].id == old(queue)[i].id
      ensures late == old(late) ==> completed == old(completed) + Served(old(queue), old(mem))
      ensures late == old(late) ==> mem == MemoryAfter(old(queue), old(mem))
      decreases |queue|, 1
    {
      hide Taken, Outcome, Apply;
      var finished := ProgramAndWait(p);
      if !finished { late := late + 1; }
      EndIo();
    }

    method EndIo()
      requires Valid()
      modifies this, ring0
      ensures Valid() && queue == [] && late >= old(late)
      ensures |completed| == |old(completed)| + |old(queue)| && old(completed) <= completed
      ensures forall i :: 0 <= i < |old(queue)| ==> completed[|old(completed)| + i].id == old(queue)[i].id
      ensures late == old(late) && old(queue) != [] && old(queue)[0].Count() <= ring0.Length ==>
                completed == old(completed) + [Taken(old(ring0[..]), old(queue)[0])] + Served(old(queue)[1..], old(mem))
      ensures late == old(late) ==> mem == if old(queue) == [] then old(mem) else MemoryAfter(old(queue)[1..], old(mem))
      decreases |queue|, 0
    {
      if queue == [] { return; }
      var p := queue[0];
      p := TakeBuffer(ring0, p);
      queue, size, completed := queue[1..], size - 1, completed + [p];
      if queue != [] {
        StartIo(queue[0]);
      }
    }
  }
}
