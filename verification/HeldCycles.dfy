/**
 * Whose cycle a held clock runs: the second controller selects, and when what it
 * selects is its cascade channel the cycle belongs to the first.
 */
module HeldCycles {
  import opened Arbitration
  import opened Dma8237
  import opened BusMaster
  import opened BoardBus
  import opened BusRuns

  /** The board once the clock's poll and arbitration are done. */
  function Polled(b: Board): (p: Board)
    requires BoardInv(b)
    ensures BoardInv(p) && p.ticksLeft == b.ticksLeft && p.transfers == b.transfers && p.held == b.held
    ensures p.transferTicks == b.transferTicks
  {
    PollKeepsInv(b);
    PollKeepsInv(Refresh(b));
    ArbitrateKeepsInv(Poll(Refresh(b)));
    hide BoardInv, Pending, ArbiterTick;
    Arbitrate(Poll(Refresh(b)))
  }

  /** A clock whose poll is done and which leaves the DMA line as bus master. */
  predicate Held(b: Board) {
    BoardInv(b) && b.possible && Polled(b).arbiter.master == DMA_LINE
  }

  /** The second controller selects its channel `p`. */
  predicate Selects(b: Board, p: nat)
    requires BoardInv(b)
  {
    Pending(Polled(b).dma1) == p < CHANNELS
  }

  /** Channel `c` moved on by one transfer, and no other channel moved. */
  predicate MovedOn(d: Dma, e: Dma, c: nat)
    requires d.Wf() && c < CHANNELS
  {
    var ch := d.channel[c];
    e.channel == d.channel[c := if ch.count > 0 then After(ch, 1) else Ended(ch)]
  }

  /** A transfer was started, and occupies this clock and the rest of its own. */
  predicate Started(b: Board, t: Board) {
    && t.transfers == b.transfers + 1 && t.held == b.held + 1
    && t.ticksLeft == if b.transferTicks > 1 then b.transferTicks - 1 else 0
  }

  lemma ServedMoves(d: Dma, c: nat, fetched: Words.byte)
    requires Serving(d, c)
    ensures Transfer(d, fetched).1.ran && MovedOn(d, Transfer(d, fetched).0, c)
  {
    var ch := d.channel[c];
    if ch.count > 0 {
      AfterStep(ch, 0);
      AfterStep(ch, 1);
    } else {
      LastAddress(ch);
      AfterStep(ch, 0);
    }
    hide Stepped;
  }

  lemma SelectedIsPending(b: Board)
    requires BoardInv(b)
    ensures Selected(Refresh(b)) == Pending(Polled(b).dma1)
  {
    hide Pending, ArbiterTick, BoardInv;
  }

  /** The second controller's cascade channel is the first controller asking: the cycle
      is the first's, on the channel it is serving, and the second does not move. */
  lemma CascadedCycle(b: Board, input: Input, c: nat)
    requires Held(b) && b.ticksLeft == 0
    requires Selects(b, CASCADE_CHANNEL) && Polled(b).dma1.channel[CASCADE_CHANNEL].Cascade()
    requires Serving(Polled(b).dma0, c)
    ensures var t := BusTick(b, input);
            Started(b, t) && t.unit == 0 && t.dma1 == Polled(b).dma1 && MovedOn(Polled(b).dma0, t.dma0, c)
  {
    SelectedIsPending(b);
    ServedMoves(Polled(b).dma0, c, input.fetched);
    hide Transfer, React, MovedOn, Serving, BoardInv, Pending, Arbitrate, Poll, Refresh, Selected;
  }

  /** Any other channel is a device of the second controller: the cycle is its own, and
      the first controller does not move. */
  lemma OwnCycle(b: Board, input: Input, p: nat)
    requires Held(b) && b.ticksLeft == 0 && Selects(b, p) && Serving(Polled(b).dma1, p)
    ensures var t := BusTick(b, input);
            Started(b, t) && t.unit == 1 && t.dma0 == Polled(b).dma0 && MovedOn(Polled(b).dma1, t.dma1, p)
  {
    SelectedIsPending(b);
    ServedMoves(Polled(b).dma1, p, input.fetched);
    assert !Polled(b).dma1.channel[p].Cascade();
    hide Transfer, React, MovedOn, Serving, BoardInv, Pending, Arbitrate, Poll, Refresh, Selected;
  }

  /** A transfer in flight only counts down. */
  lemma InFlight(b: Board, input: Input)
    requires Held(b) && b.ticksLeft > 0
    ensures var t := BusTick(b, input);
            && t.dma0 == Polled(b).dma0 && t.dma1 == Polled(b).dma1 && t.devices == Polled(b).devices
            && t.transfers == b.transfers && t.held == b.held + 1 && t.ticksLeft == b.ticksLeft - 1
  {
    hide BoardInv, Pending, Arbitrate, Poll, Refresh, Selected;
  }

  // ----- from the devices' own lines ----------------------------------------------------

  /** The DMA line is master already, no transfer is in flight, and something asks: then
      the clock is a held one. */
  predicate Granted(b: Board) {
    BoardInv(b) && b.possible && b.ticksLeft == 0
    && b.arbiter.master == DMA_LINE && Selected(Refresh(b)) >= 0
  }

  lemma GrantedIsHeld(b: Board)
    requires Granted(b)
    ensures Held(b)
  {
    PollKeepsInv(b);
    PollKeepsInv(Refresh(b));
    PollDrivesLine(Refresh(b));
    ArbitrateKeepsInv(Poll(Refresh(b)));
    ArbiterTickSafety(Poll(Refresh(b)).arbiter);
    hide Pending, ArbiterTick, Arbitrate, Pins0, Pins1;
  }

  /** What the poll leaves in the controllers, from the devices' lines alone. */
  lemma PolledPins(b: Board)
    requires BoardInv(b)
    ensures Polled(b).dma0 == SetPin(Pins0(b.dma0, b.devices), b.port.channel, b.port.request)
    ensures Polled(b).dma1 == Pins1(b.dma1, b.devices, Pending(Pins0(b.dma0, b.devices)) >= 0)
    ensures Selected(Refresh(b)) == Pending(Polled(b).dma1)
  {
    hide Pending, ArbiterTick, Pins0, Pins1, BoardInv;
  }

  /** What a channel needs to be served once its pin is up. */
  predicate Ready(d: Dma, c: nat)
    requires d.Wf() && c < CHANNELS
  {
    Clear(d, c) && !d.mask[c] && !d.channel[c].Cascade() && d.channel[c].Direction() != 3
  }

  lemma TapeAsks(d: Dma, v: Devices, other: nat, up: bool)
    requires d.Wf() && Ready(d, TAPE_CHANNEL) && v.TapeLine() && TAPE_CHANNEL < other < CHANNELS
    ensures Pending(Pins0(d, v)) >= 0
    ensures Serving(SetPin(Pins0(d, v), other, up), TAPE_CHANNEL)
  {
    assert !d.Asking(0);
  }

  lemma CascadeWins(d: Dma, v: Devices)
    requires d.Wf() && !d.mask[CASCADE_CHANNEL] && !d.Disabled()
    ensures Pending(Pins1(d, v, true)) == CASCADE_CHANNEL
  {
  }

  /** A byte waiting on the tape is moved by the first controller's channel 1, through
      the cascade, and nothing of the second controller's moves. */
  lemma TapeByte(b: Board, input: Input)
    requires BoardInv(b) && b.possible && b.ticksLeft == 0 && b.arbiter.master == DMA_LINE
    requires b.devices.TapeLine() && Ready(b.dma0, TAPE_CHANNEL) && b.port.channel > TAPE_CHANNEL
    requires b.dma1.channel[CASCADE_CHANNEL].Cascade() && !b.dma1.mask[CASCADE_CHANNEL] && !b.dma1.Disabled()
    ensures var t := BusTick(b, input);
            Started(b, t) && MovedOn(b.dma0, t.dma0, TAPE_CHANNEL) && t.dma1.channel == b.dma1.channel
  {
    PolledPins(b);
    TapeAsks(b.dma0, b.devices, b.port.channel, b.port.request);
    CascadeWins(b.dma1, b.devices);
    GrantedIsHeld(b);
    CascadedCycle(b, input, TAPE_CHANNEL);
    hide BusTick, BoardInv, Polled, Pending, Serving, Ready, After, Ended;
  }

  /** A byte of the second controller's own device, on the channel its encoder selects. */
  lemma OwnByte(b: Board, input: Input, p: nat)
    requires BoardInv(b) && b.possible && b.ticksLeft == 0 && b.arbiter.master == DMA_LINE
    requires Serving(Pins1(b.dma1, b.devices, Pending(Pins0(b.dma0, b.devices)) >= 0), p)
    ensures var t := BusTick(b, input);
            Started(b, t) && MovedOn(b.dma1, t.dma1, p) && t.dma0.channel == b.dma0.channel
  {
    PolledPins(b);
    GrantedIsHeld(b);
    OwnCycle(b, input, p);
    hide BusTick, BoardInv, Polled;
  }

  // ----- the 802.3 card's own accounting -----------------------------------------------------

  /** After `n` of the card's own cycles. */
  function CyclesRan(e: Ether, n: nat): Ether {
    if n == 0 then e else CyclesRan(e, n - 1).CycleRan()
  }

  /** Out of burst mode the card owes its pause from the ninth byte on and not before; in
      burst mode never. */
  lemma {:induction false} PauseOwedAfterNine(e: Ether, n: nat)
    requires e.sincePause == 0 && !e.pauseOwed
    ensures var f := CyclesRan(e, n);
            && f == e.(sincePause := f.sincePause, pauseOwed := f.pauseOwed)
            && (if e.burst then f == e else f.sincePause == n && (f.pauseOwed <==> n >= 9))
  {
    if n > 0 { PauseOwedAfterNine(e, n - 1); }
  }

  /** The card's line: up only when it is fitted, enabled, not done, ready and owes
      nothing; and the sample that finds a pause owed pays it and sees the line down. */
  lemma LineAndPause(e: Ether)
    ensures e.Line() <==> e.fitted && e.enabled && !e.done && e.hostReady && !e.pauseOwed
    ensures e.fitted && e.enabled && !e.done && e.pauseOwed ==>
            !e.Line() && e.Sampled() == e.(pauseOwed := false, sincePause := 0)
    ensures e.done || !e.enabled || !e.fitted ==> e.Sampled() == e
  {
  }

  /** What a started cycle leaves of the card: a byte it moved itself is counted as its
      next cycle and its own terminal count makes it done; anyone else's cycle leaves its
      count alone. */
  lemma CardCounts(before: Devices, unit: nat, cycle: Cycle, reaction: Devices)
    ensures var was, now := before.ether, React(before, unit, cycle, reaction).ether;
            var own := was.fitted && unit == 1 && cycle.channel == 2;
            var kept := reaction.ether.(sincePause := was.sincePause, pauseOwed := was.pauseOwed);
            var counted := if own && cycle.op != Nothing && !cycle.op.Copy? then CyclesRan(kept, 1) else kept;
            && now == (if own && cycle.terminalCount then counted.(done := true) else counted)
            && (own && cycle.terminalCount ==> !now.Line())
  {
    assert CyclesRan(reaction.ether, 0) == reaction.ether;
    var kept := reaction.ether.(sincePause := before.ether.sincePause, pauseOwed := before.ether.pauseOwed);
    assert CyclesRan(kept, 1) == CyclesRan(kept, 0).CycleRan() == kept.CycleRan();
  }

  /** A tape or floppy byte, moved through the cascade, is none of the card's. */
  lemma CascadeSparesCard(b: Board, input: Input, c: nat)
    requires Held(b) && b.ticksLeft == 0
    requires Selects(b, CASCADE_CHANNEL) && Polled(b).dma1.channel[CASCADE_CHANNEL].Cascade()
    requires Serving(Polled(b).dma0, c)
    ensures var was, now := Polled(b).devices.ether, BusTick(b, input).devices.ether;
            now == input.reaction.ether.(sincePause := was.sincePause, pauseOwed := was.pauseOwed)
  {
    SelectedIsPending(b);
    ServedMoves(Polled(b).dma0, c, input.fetched);
    hide Transfer, MovedOn, Serving, BoardInv, Pending, Arbitrate, Poll, Refresh, Selected;
  }

  /** A byte the second controller moves for the card itself is counted, and the last of a
      block makes the card done. */
  lemma CardByte(b: Board, input: Input)
    requires Held(b) && b.ticksLeft == 0 && Selects(b, ETHERNET_CHANNEL)
    requires Serving(Polled(b).dma1, ETHERNET_CHANNEL) && Polled(b).devices.ether.fitted
    requires Polled(b).dma1.channel[ETHERNET_CHANNEL].Direction() != 0
    ensures var was, now := Polled(b).devices.ether, BusTick(b, input).devices.ether;
            var last := Polled(b).dma1.channel[ETHERNET_CHANNEL].count == 0;
            && now.sincePause == was.sincePause + (if input.reaction.ether.burst then 0 else 1)
            && (last ==> now.done && !now.Line()) && (!last ==> now.done == input.reaction.ether.done)
  {
    SelectedIsPending(b);
    ServedMoves(Polled(b).dma1, ETHERNET_CHANNEL, input.fetched);
    ServedCycle(Polled(b).dma1, ETHERNET_CHANNEL);
    FetchedIsFree(Polled(b).dma1, ETHERNET_CHANNEL, input.fetched);
    assert !Polled(b).dma1.channel[ETHERNET_CHANNEL].Cascade();
    hide Transfer, MovedOn, BoardInv, Pending, Arbitrate, Poll, Refresh, Selected;
  }

  /** Outside memory to memory the byte read matters to no cycle. */
  lemma FetchedIsFree(d: Dma, c: nat, v: Words.byte)
    requires Serving(d, c)
    ensures Transfer(d, v) == Transfer(d, 0)
  {
  }
}
