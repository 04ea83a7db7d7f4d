/**
 * The rings that are fed, as queues. What a ring's live entries are is settled here by
 * what putting and taking do to them; two devices that feed alike therefore go on
 * feeding alike, wherever their heads stand and whatever their spare slots hold.
 */
module FeedQueues {
  import opened Arithmetic
  import opened Words
  import opened StateFeed
  import opened DeviceFeeds
  import opened DisplayFeed

  // ----- one ring --------------------------------------------------------------------

  /** A ring as the devices keep it: its slots, where the oldest entry is and how many
      there are. */
  datatype Fifo<T> = Fifo(slots: seq<T>, head: nat, count: nat) {
    predicate Wf() { head < |slots| && count <= |slots| }
  }

  function Live<T>(f: Fifo<T>): seq<T>
    requires f.Wf()
  {
    Ring(f.slots, f.head, f.count)
  }

  /** A full ring refuses. */
  function Put<T>(f: Fifo<T>, x: T): (g: Fifo<T>)
    requires f.Wf()
    ensures g.Wf() && |g.slots| == |f.slots|
  {
    if f.count == |f.slots| then f
    else Fifo(f.slots[(f.head + f.count) % |f.slots| := x], f.head, f.count + 1)
  }

  function Take<T>(f: Fifo<T>): (g: Fifo<T>)
    requires f.Wf()
    ensures g.Wf() && g.slots == f.slots
  {
    if f.count == 0 then f else Fifo(f.slots, (f.head + 1) % |f.slots|, f.count - 1)
  }

  lemma Around(a: nat, n: nat)
    requires 0 < n && a < 2 * n
    ensures a % n == if a < n then a else a - n
  {
    Division(a, n, if a < n then 0 else 1, if a < n then a else a - n);
  }

  lemma LiveAt<T>(f: Fifo<T>, i: nat)
    requires f.Wf() && i < f.count
    ensures Live(f)[i] == f.slots[if f.head + i < |f.slots| then f.head + i else f.head + i - |f.slots|]
  {
    Around(f.head + i, |f.slots|);
  }

  /** An empty ring holds nothing. */
  lemma NothingLive<T>(f: Fifo<T>)
    requires f.Wf() && f.count == 0
    ensures Live(f) == []
  {
  }

  /** Putting joins the end of the queue, wherever it is in the ring. */
  lemma PutAppends<T>(f: Fifo<T>, x: T)
    requires f.Wf() && f.count < |f.slots|
    ensures Live(Put(f, x)) == Live(f) + [x]
  {
    var g := Put(f, x);
    Around(f.head + f.count, |f.slots|);
    forall i | 0 <= i < g.count ensures Live(g)[i] == (Live(f) + [x])[i] {
      LiveAt(g, i);
      if i < f.count { LiveAt(f, i); }
    }
  }

  /** Taking leaves what was behind the front, in order. */
  lemma TakeDropsFront<T>(f: Fifo<T>)
    requires f.Wf() && f.count > 0
    ensures Live(f)[0] == f.slots[f.head] && Live(Take(f)) == Live(f)[1..]
  {
    var g := Take(f);
    LiveAt(f, 0);
    Around(f.head + 1, |f.slots|);
    forall i | 0 <= i < g.count ensures Live(g)[i] == Live(f)[1..][i] {
      LiveAt(g, i);
      LiveAt(f, i + 1);
    }
  }

  datatype QueueOp<T> = Enqueue(x: T) | Dequeue

  function AfterOps<T>(f: Fifo<T>, ops: seq<QueueOp<T>>): (g: Fifo<T>)
    requires f.Wf()
    ensures g.Wf() && |g.slots| == |f.slots|
  {
    if ops == [] then f
    else
      var g := AfterOps(f, ops[..|ops| - 1]);
      match ops[|ops| - 1] case Enqueue(x) => Put(g, x) case Dequeue => Take(g)
  }

  /** The same history on a plain queue of bounded length. */
  function Queued<T>(live: seq<T>, ops: seq<QueueOp<T>>, capacity: nat): seq<T> {
    if ops == [] then live
    else
      var q := Queued(live, ops[..|ops| - 1], capacity);
      match ops[|ops| - 1]
      case Enqueue(x) => if |q| >= capacity then q else q + [x]
      case Dequeue => if q == [] then q else q[1..]
  }

  /** Over every history a ring is that queue: where the head started and what the spare
      slots held never show. */
  lemma {:induction false} RingIsQueue<T>(f: Fifo<T>, ops: seq<QueueOp<T>>)
    requires f.Wf()
    ensures Live(AfterOps(f, ops)) == Queued(Live(f), ops, |f.slots|)
  {
    hide Put, Take, Ring;
    if ops != [] {
      var n := |ops| - 1;
      RingIsQueue(f, ops[..n]);
      var g := AfterOps(f, ops[..n]);
      if ops[n].Enqueue? && g.count < |g.slots| {
        PutAppends(g, ops[n].x);
      } else if ops[n].Dequeue? && g.count > 0 {
        TakeDropsFront(g);
      } else {
        Stays(g, ops[n]);
      }
    }
  }

  lemma Stays<T>(f: Fifo<T>, op: QueueOp<T>)
    requires f.Wf() && (if op.Enqueue? then f.count == |f.slots| else f.count == 0)
    ensures (match op case Enqueue(x) => Put(f, x) case Dequeue => Take(f)) == f
  {
  }

  /** Two rings of one size that start empty hold the same after the same history. */
  lemma SameHistory<T>(f: Fifo<T>, g: Fifo<T>, ops: seq<QueueOp<T>>)
    requires f.Wf() && g.Wf() && |f.slots| == |g.slots| && f.count == g.count == 0
    ensures Live(AfterOps(f, ops)) == Live(AfterOps(g, ops))
  {
    RingIsQueue(f, ops);
    RingIsQueue(g, ops);
  }

  // ----- the SCSI adapter's interrupts ---------------------------------------------------

  /** What the adapter keeps: an interrupt is shown exactly while one is queued. */
  predicate AscSound(q: AscQueue) {
    q.Wf() && AscFifo(q).Wf() && (q.awaitingAck <==> q.count > 0)
  }

  function AscFifo(q: AscQueue): Fifo<byte> { Fifo(q.slots, q.head, q.count) }

  /** Acknowledging an incoming box's service frees the box; `inUse` is what is held
      afterwards, here and when a box is taken. */
  datatype AscEvent = Post(status: byte) | Acknowledge(inUse: quad) | HoldBox(inUse: quad)

  /** One event on the adapter's queue. */
  function AscStep(q: AscQueue, e: AscEvent): (r: AscQueue)
    requires AscSound(q)
    ensures AscSound(r)
  {
    match e
    case Post(status) =>
      if q.count >= IRQ_QUEUE then q
      else
        var f := Put(AscFifo(q), status);
        q.(slots := f.slots, count := f.count, awaitingAck := true)
    case Acknowledge(inUse) =>
      if !q.awaitingAck then q
      else
        var f := Take(AscFifo(q));
        q.(head := f.head, count := f.count, awaitingAck := f.count > 0, icmbInUse := inUse)
    case HoldBox(inUse) => q.(icmbInUse := inUse)
  }

  /** The same event on what is fed. */
  function LiveAscStep(l: LiveAsc, e: AscEvent): LiveAsc {
    match e
    case Post(status) =>
      if |l.queue| >= IRQ_QUEUE then l else l.(queue := l.queue + [status], awaitingAck := true)
    case Acknowledge(inUse) =>
      if l.queue == [] then l
      else LiveAsc(l.queue[1..], |l.queue| > 1, inUse)
    case HoldBox(inUse) => l.(icmbInUse := inUse)
  }

  lemma AscStepsLive(q: AscQueue, e: AscEvent)
    requires AscSound(q)
    ensures AscLive(AscStep(q, e)) == LiveAscStep(AscLive(q), e)
  {
    hide Ring;
    match e
    case Post(status) => if q.count < IRQ_QUEUE { PutAppends(AscFifo(q), status); }
    case Acknowledge(_) => if q.count > 0 { TakeDropsFront(AscFifo(q)); } else { NothingLive(AscFifo(q)); }
    case HoldBox(_) =>
  }

  function AscAfter(q: AscQueue, events: seq<AscEvent>): (r: AscQueue)
    requires AscSound(q)
    ensures AscSound(r)
  {
    if events == [] then q else AscStep(AscAfter(q, events[..|events| - 1]), events[|events| - 1])
  }

  /** Two adapters whose queues feed alike feed alike after every history, from any
      heads and with any stale slots. */
  lemma {:induction false} AscFeedsAlike(q: AscQueue, r: AscQueue, events: seq<AscEvent>)
    requires AscSound(q) && AscSound(r)
    requires Stream(AscItems(AscLive(q), q.count)) == Stream(AscItems(AscLive(r), r.count))
    ensures var s, t := AscAfter(q, events), AscAfter(r, events);
            Stream(AscItems(AscLive(s), s.count)) == Stream(AscItems(AscLive(t), t.count))
  {
    hide Stream, AscItems, AscLive, AscStep;
    AscTail(q, r);
    AscLiveAlike(q, r, events);
    AscTail(AscAfter(q, events), AscAfter(r, events));
  }

  lemma AscTail(q: AscQueue, r: AscQueue)
    requires q.Wf() && r.Wf()
    ensures Stream(AscItems(AscLive(q), q.count)) == Stream(AscItems(AscLive(r), r.count)) <==> AscLive(q) == AscLive(r)
  {
    hide Stream, AscItems, AscLive;
    AscExact(q, [], r, []);
    assert Stream(AscItems(AscLive(q), q.count)) + [] == Stream(AscItems(AscLive(q), q.count));
    assert Stream(AscItems(AscLive(r), r.count)) + [] == Stream(AscItems(AscLive(r), r.count));
  }

  lemma {:induction false} AscLiveAlike(q: AscQueue, r: AscQueue, events: seq<AscEvent>)
    requires AscSound(q) && AscSound(r) && AscLive(q) == AscLive(r)
    ensures AscLive(AscAfter(q, events)) == AscLive(AscAfter(r, events))
  {
    hide AscStep, AscLive, LiveAscStep;
    if events != [] {
      var n := |events| - 1;
      AscLiveAlike(q, r, events[..n]);
      AscStepsLive(AscAfter(q, events[..n]), events[n]);
      AscStepsLive(AscAfter(r, events[..n]), events[n]);
    }
  }

  // ----- the keyboard's one transmitter ----------------------------------------------------

  const KEY_POSITIONS: nat := 16
  const REPLY_POSITIONS: nat := 64
  const TX_QUEUE: nat := KEY_POSITIONS + REPLY_POSITIONS
  /** Eleven bits at 1200 baud, in units of the time base. */
  const TX_CHARACTER: nat := 197_472_000_000
  const TIME_WRAP: nat := 0x1_0000_0000_0000_0000

  /** When a character begun at `t` is out. */
  function OneCharacter(t: quad): quad { (t + TX_CHARACTER) % TIME_WRAP }

  function Trues(s: seq<bool>): (n: nat)
    ensures n <= |s|
  {
    if s == [] then 0 else Trues(s[..|s| - 1]) + if s[|s| - 1] then 1 else 0
  }

  lemma {:induction false} TruesBehindFront(s: seq<bool>)
    requires s != []
    ensures Trues(s) == Trues(s[1..]) + if s[0] then 1 else 0
  {
    if |s| > 1 {
      TruesBehindFront(s[..|s| - 1]);
      assert s[..|s| - 1][1..] == s[1..][..|s| - 2];
    }
  }

  function CodeFifo(k: Keyboard): Fifo<byte> { Fifo(k.buffer, k.head, k.buffered) }
  function SenderFifo(k: Keyboard): Fifo<bool> { Fifo(k.fromReply, k.head, k.buffered) }

  /** Both rings in step, and each allowance the number of its own bytes queued. */
  predicate KeyboardSound(k: Keyboard) {
    && k.Wf() && |k.buffer| == TX_QUEUE && CodeFifo(k).Wf() && SenderFifo(k).Wf()
    && k.keyBuffered <= KEY_POSITIONS && k.replyBuffered <= REPLY_POSITIONS
    && k.buffered == k.keyBuffered + k.replyBuffered
    && k.replyBuffered == Trues(Live(SenderFifo(k)))
  }

  /** An idle transmitter starts the byte as it is queued. */
  function Queue(k: Keyboard, code: byte, reply: bool, now: quad): Keyboard
    requires k.Wf() && CodeFifo(k).Wf() && SenderFifo(k).Wf() && k.buffered < TX_QUEUE
    requires k.keyBuffered < 0xFFFF_FFFF && k.replyBuffered < 0xFFFF_FFFF
  {
    k.(buffer := Put(CodeFifo(k), code).slots, fromReply := Put(SenderFifo(k), reply).slots, buffered := k.buffered + 1,
       keyBuffered := if reply then k.keyBuffered else k.keyBuffered + 1,
       replyBuffered := if reply then k.replyBuffered + 1 else k.replyBuffered,
       txAt := if k.buffered == 0 then OneCharacter(now) else k.txAt)
  }

  datatype KeyEvent = Key(code: byte, now: quad) | Answer(code: byte, now: quad) | Send(now: quad)

  /** A key byte, one byte of an answer, or the transmitter's turn. */
  function KeyStep(k: Keyboard, e: KeyEvent): Keyboard
    requires KeyboardSound(k)
  {
    match e
    case Key(code, now) => if k.keyBuffered >= KEY_POSITIONS then k else Queue(k, code, false, now)
    case Answer(code, now) => if k.replyBuffered >= REPLY_POSITIONS then k else Queue(k, code, true, now)
    case Send(now) =>
      if k.buffered == 0 || now < k.txAt then k
      else
        SenderInFront(k);
        k.(head := Take(CodeFifo(k)).head, buffered := k.buffered - 1,
           replyBuffered := if k.fromReply[k.head] then k.replyBuffered - 1 else k.replyBuffered,
           keyBuffered := if k.fromReply[k.head] then k.keyBuffered else k.keyBuffered - 1,
           txAt := OneCharacter(k.txAt))
  }

  lemma SenderInFront(k: Keyboard)
    requires KeyboardSound(k) && k.buffered > 0
    ensures k.fromReply[k.head] ==> k.replyBuffered > 0
    ensures !k.fromReply[k.head] ==> k.keyBuffered > 0
  {
    hide Ring;
    TakeDropsFront(SenderFifo(k));
    TruesBehindFront(Live(SenderFifo(k)));
  }

  function LiveQueue(l: LiveKeyboard, code: byte, reply: bool, now: quad): LiveKeyboard
    requires l.count < 0xFFFF_FFFF && l.keyBuffered < 0xFFFF_FFFF && l.replyBuffered < 0xFFFF_FFFF
  {
    l.(queue := l.queue + [code], fromReply := l.fromReply + [reply], count := l.count + 1,
       keyBuffered := if reply then l.keyBuffered else l.keyBuffered + 1,
       replyBuffered := if reply then l.replyBuffered + 1 else l.replyBuffered,
       txAt := if l.count == 0 then OneCharacter(now) else l.txAt)
  }

  predicate LiveSound(l: LiveKeyboard) {
    && |l.queue| == |l.fromReply| == l.count && l.count == l.keyBuffered + l.replyBuffered
    && l.keyBuffered <= KEY_POSITIONS && l.replyBuffered == Trues(l.fromReply) <= REPLY_POSITIONS
  }

  /** The same on what is fed: key bytes up to sixteen, answers up to sixty-four, all in
      one line in order of arrival. */
  function LiveKeyStep(l: LiveKeyboard, e: KeyEvent): LiveKeyboard
    requires LiveSound(l)
  {
    match e
    case Key(code, now) => if l.keyBuffered >= KEY_POSITIONS then l else LiveQueue(l, code, false, now)
    case Answer(code, now) => if l.replyBuffered >= REPLY_POSITIONS then l else LiveQueue(l, code, true, now)
    case Send(now) =>
      if l.queue == [] || now < l.txAt then l
      else
        TruesBehindFront(l.fromReply);
        l.(queue := l.queue[1..], fromReply := l.fromReply[1..], count := l.count - 1,
           replyBuffered := if l.fromReply[0] then l.replyBuffered - 1 else l.replyBuffered,
           keyBuffered := if l.fromReply[0] then l.keyBuffered else l.keyBuffered - 1,
           txAt := OneCharacter(l.txAt))
  }

  lemma LiveIsSound(k: Keyboard)
    requires KeyboardSound(k)
    ensures LiveSound(KeyboardLive(k))
    ensures KeyboardLive(k).queue == Live(CodeFifo(k)) && KeyboardLive(k).fromReply == Live(SenderFifo(k))
  {
    hide Ring, Trues;
  }

  lemma QueueStepsLive(k: Keyboard, code: byte, reply: bool, now: quad)
    requires KeyboardSound(k)
    requires if reply then k.replyBuffered < REPLY_POSITIONS else k.keyBuffered < KEY_POSITIONS
    ensures KeyboardSound(Queue(k, code, reply, now))
    ensures KeyboardLive(Queue(k, code, reply, now)) == LiveQueue(KeyboardLive(k), code, reply, now)
  {
    BothPut(k, code, reply);
    QueuePuts(k, code, reply, now);
    hide Ring, Trues, Put, Queue;
    assert KeyboardSound(Queue(k, code, reply, now));
    hide KeyboardSound;
  }

  /** What queueing leaves in each field. */
  lemma QueuePuts(k: Keyboard, code: byte, reply: bool, now: quad)
    requires KeyboardSound(k) && k.buffered < TX_QUEUE
    ensures var n := Queue(k, code, reply, now);
            && CodeFifo(n) == Put(CodeFifo(k), code) && SenderFifo(n) == Put(SenderFifo(k), reply)
            && n.keyBuffered + n.replyBuffered == n.buffered == k.buffered + 1 && n.head == k.head
            && n.replyBuffered == (if reply then k.replyBuffered + 1 else k.replyBuffered)
            && n == k.(buffer := n.buffer, fromReply := n.fromReply, buffered := n.buffered, txAt := n.txAt,
                       keyBuffered := n.keyBuffered, replyBuffered := n.replyBuffered)
            && n.txAt == if k.buffered == 0 then OneCharacter(now) else k.txAt
  {
    hide Ring, Trues, Put, OneCharacter;
    PutIs(CodeFifo(k), code);
    PutIs(SenderFifo(k), reply);
  }

  lemma PutIs<T>(f: Fifo<T>, x: T)
    requires f.Wf() && f.count < |f.slots|
    ensures Put(f, x) == Fifo(Put(f, x).slots, f.head, f.count + 1)
  {
  }

  lemma TransmitStepsLive(k: Keyboard, now: quad)
    requires KeyboardSound(k)
    ensures LiveSound(KeyboardLive(k)) && KeyboardSound(KeyStep(k, Send(now)))
    ensures KeyboardLive(KeyStep(k, Send(now))) == LiveKeyStep(KeyboardLive(k), Send(now))
  {
    hide Ring, Trues;
    if k.buffered > 0 && now >= k.txAt {
      TakeDropsFront(CodeFifo(k));
      TakeDropsFront(SenderFifo(k));
      TruesBehindFront(Live(SenderFifo(k)));
      var n := KeyStep(k, Send(now));
      assert CodeFifo(n) == Take(CodeFifo(k)) && SenderFifo(n) == Take(SenderFifo(k));
    }
  }

  lemma KeyStepsLive(k: Keyboard, e: KeyEvent)
    requires KeyboardSound(k)
    ensures LiveSound(KeyboardLive(k)) && KeyboardSound(KeyStep(k, e))
    ensures KeyboardLive(KeyStep(k, e)) == LiveKeyStep(KeyboardLive(k), e)
  {
    LiveIsSound(k);
    match e
    case Key(code, now) => if k.keyBuffered < KEY_POSITIONS { QueueStepsLive(k, code, false, now); }
    case Answer(code, now) => if k.replyBuffered < REPLY_POSITIONS { QueueStepsLive(k, code, true, now); }
    case Send(now) => TransmitStepsLive(k, now);
    hide Ring, Trues, Put, Take, KeyboardSound, LiveSound, Queue, LiveQueue;
  }

  lemma BothPut(k: Keyboard, code: byte, reply: bool)
    requires KeyboardSound(k) && k.buffered < TX_QUEUE
    ensures Live(Put(CodeFifo(k), code)) == Live(CodeFifo(k)) + [code]
    ensures Live(Put(SenderFifo(k), reply)) == Live(SenderFifo(k)) + [reply]
    ensures Trues(Live(SenderFifo(k)) + [reply]) == Trues(Live(SenderFifo(k))) + if reply then 1 else 0
  {
    hide Ring;
    PutAppends(CodeFifo(k), code);
    PutAppends(SenderFifo(k), reply);
    assert (Live(SenderFifo(k)) + [reply])[..k.buffered] == Live(SenderFifo(k));
  }

  function KeysAfter(k: Keyboard, events: seq<KeyEvent>): (n: Keyboard)
    requires KeyboardSound(k)
    ensures KeyboardSound(n)
  {
    if events == [] then k
    else
      var m := KeysAfter(k, events[..|events| - 1]);
      KeyStepsLive(m, events[|events| - 1]);
      KeyStep(m, events[|events| - 1])
  }

  lemma {:induction false} KeysLiveAlike(j: Keyboard, k: Keyboard, events: seq<KeyEvent>)
    requires KeyboardSound(j) && KeyboardSound(k) && KeyboardLive(j) == KeyboardLive(k)
    ensures KeyboardLive(KeysAfter(j, events)) == KeyboardLive(KeysAfter(k, events))
  {
    hide KeyStep, KeyboardLive, LiveKeyStep, KeyboardSound, LiveSound;
    if events != [] {
      var n := |events| - 1;
      KeysLiveAlike(j, k, events[..n]);
      KeyStepsLive(KeysAfter(j, events[..n]), events[n]);
      KeyStepsLive(KeysAfter(k, events[..n]), events[n]);
    }
  }

  /** Two keyboards that feed alike feed alike after every history of keys, answers and
      the transmitter's turns. */
  lemma KeyboardFeedsAlike(j: Keyboard, k: Keyboard, events: seq<KeyEvent>)
    requires KeyboardSound(j) && KeyboardSound(k)
    requires Stream(KeyboardItems(KeyboardLive(j))) == Stream(KeyboardItems(KeyboardLive(k)))
    ensures Stream(KeyboardItems(KeyboardLive(KeysAfter(j, events)))) ==
            Stream(KeyboardItems(KeyboardLive(KeysAfter(k, events))))
  {
    hide Stream, KeyboardItems, KeyboardLive, KeyStep, Ring, Trues;
    var s, t := Stream(KeyboardItems(KeyboardLive(j))), Stream(KeyboardItems(KeyboardLive(k)));
    KeyboardExact(j, [], k, []);
    assert s + [] == s && t + [] == t;
    KeysLiveAlike(j, k, events);
  }

  // ----- the display's palette bytes ---------------------------------------------------------

  predicate DisplaySound(d: Display) { d.Wf() && LutFifo(d).Wf() }

  function LutFifo(d: Display): Fifo<byte> { Fifo(d.fifo, d.head, d.count) }

  datatype LutEvent = PutByte(value: byte) | TakeByte | ResetFifo

  function LutStep(d: Display, e: LutEvent): (n: Display)
    requires DisplaySound(d)
    ensures DisplaySound(n)
  {
    match e
    case PutByte(value) => var f := Put(LutFifo(d), value); d.(fifo := f.slots, count := f.count)
    case TakeByte => var f := Take(LutFifo(d)); d.(head := f.head, count := f.count)
    case ResetFifo => d.(head := 0, count := 0)
  }

  function LiveLutStep(l: Display, e: LutEvent): Display
    requires |l.fifo| < 0x1_0000_0000 - 1
  {
    match e
    case PutByte(value) =>
      if |l.fifo| >= LUT_FIFO then l else l.(fifo := l.fifo + [value], count := |l.fifo| + 1)
    case TakeByte => if l.fifo == [] then l else l.(fifo := l.fifo[1..], count := |l.fifo| - 1)
    case ResetFifo => l.(fifo := [], count := 0)
  }

  lemma LutStepsLive(d: Display, e: LutEvent)
    requires DisplaySound(d)
    ensures DisplayLive(LutStep(d, e)) == LiveLutStep(DisplayLive(d), e)
  {
    match e
    case PutByte(value) => if d.count < LUT_FIFO { PutAppends(LutFifo(d), value); }
    case TakeByte => if d.count > 0 { TakeDropsFront(LutFifo(d)); }
    case ResetFifo => NothingLive(LutFifo(LutStep(d, e)));
    hide Ring;
  }

  function LutAfter(d: Display, events: seq<LutEvent>): (n: Display)
    requires DisplaySound(d)
    ensures DisplaySound(n)
  {
    if events == [] then d else LutStep(LutAfter(d, events[..|events| - 1]), events[|events| - 1])
  }

  lemma {:induction false} LutLiveAlike(d: Display, e: Display, events: seq<LutEvent>)
    requires DisplaySound(d) && DisplaySound(e) && DisplayLive(d) == DisplayLive(e)
    ensures DisplayLive(LutAfter(d, events)) == DisplayLive(LutAfter(e, events))
  {
    hide LutStep, DisplayLive, LiveLutStep;
    if events != [] {
      var n := |events| - 1;
      LutLiveAlike(d, e, events[..n]);
      LutStepsLive(LutAfter(d, events[..n]), events[n]);
      LutStepsLive(LutAfter(e, events[..n]), events[n]);
    }
  }

  /** The same of two displays. */
  lemma DisplayFeedsAlike(d: Display, e: Display, events: seq<LutEvent>)
    requires DisplaySound(d) && DisplaySound(e)
    requires Stream(DisplayItems(DisplayLive(d))) == Stream(DisplayItems(DisplayLive(e)))
    ensures Stream(DisplayItems(DisplayLive(LutAfter(d, events)))) ==
            Stream(DisplayItems(DisplayLive(LutAfter(e, events))))
  {
    hide Stream, DisplayItems, DisplayLive, LutStep;
    var s, t := Stream(DisplayItems(DisplayLive(d))), Stream(DisplayItems(DisplayLive(e)));
    DisplayExact(d, [], e, []);
    assert s + [] == s && t + [] == t;
    LutLiveAlike(d, e, events);
  }
}
