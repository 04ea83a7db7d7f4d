/** What holds of every run of the board's bus clock. */
module BusRuns {
  import opened Arbitration
  import opened Arithmetic
  import opened Dma8237
  import opened BusMaster
  import opened BoardBus

  // ----- one clock ----------------------------------------------------------------

  lemma ArbitrateKeepsInv(b: Board)
    requires BoardInv(b)
    ensures BoardInv(Arbitrate(b))
    ensures Arbitrate(b).arbiter.master == ArbiterTick(b.arbiter).master
    ensures Arbitrate(b).arbiter.request[DMA_LINE] == b.arbiter.request[DMA_LINE]
  {
    hide Pending, ArbiterTick;
    ArbiterTickSafety(b.arbiter);
  }

  lemma HeldKeepsInv(b: Board, selected: int, input: Input)
    requires BoardInv(b)
    ensures BoardInv(HeldClock(b, selected, input))
    ensures HeldClock(b, selected, input).arbiter == b.arbiter && HeldClock(b, selected, input).port == b.port
    ensures HeldClock(b, selected, input).possible == b.possible
  {
    hide Transfer, React;
  }

  lemma TickKeepsInv(b: Board, input: Input)
    requires BoardInv(b)
    ensures BoardInv(PolledTick(b, input)) && BoardInv(BusTick(b, input))
  {
    hide Poll, HeldClock, Arbitrate, Selected;
    PollKeepsInv(b);
    PollKeepsInv(Refresh(b));
    ArbitrateKeepsInv(Refresh(b));
    ArbitrateKeepsInv(Poll(Refresh(b)));
    HeldKeepsInv(Arbitrate(Poll(Refresh(b))), Selected(Refresh(b)), input);
  }

  /** The DMA line is master only on a clock whose poll found a request standing. */
  lemma HeldOnlyWhileAsking(b: Board)
    requires BoardInv(b)
    ensures Arbitrate(Poll(Refresh(b))).arbiter.master == DMA_LINE ==> Selected(Refresh(b)) >= 0
    ensures !b.possible && !b.arbiter.request[DMA_LINE] ==> Arbitrate(Refresh(b)).arbiter.master != DMA_LINE
  {
    PollKeepsInv(b);
    PollKeepsInv(Refresh(b));
    MasterIsAsking(Poll(Refresh(b)));
    MasterIsAsking(Refresh(b));
    PollDrivesLine(Refresh(b));
    hide Arbitrate, Poll, Selected;
  }

  lemma MasterIsAsking(q: Board)
    requires BoardInv(q)
    ensures BoardInv(Arbitrate(q))
    ensures Arbitrate(q).arbiter.master == DMA_LINE ==> q.arbiter.request[DMA_LINE]
  {
    hide Arbitrate, ArbiterTick;
    ArbitrateKeepsInv(q);
    ArbiterTickSafety(q.arbiter);
  }

  lemma PollDrivesLine(r: Board)
    requires r.dma0.Wf() && r.dma1.Wf() && |r.arbiter.request| == REQUESTERS
    ensures Poll(r).arbiter.request[DMA_LINE] == (Selected(r) >= 0)
  {
    hide Pending, Pins0, Pins1, AnyBit;
  }

  // ----- every run ------------------------------------------------------------------

  type WfDma = d: Dma | d.Wf() witness RESET

  /** What happens to the board: software reaching a DMA-capable region, which may do
      anything to the devices and both controllers and re-arms the poll; the devices
      moving by themselves; the reset line, which clears both controllers and re-arms
      nothing; the processor locking or deferring; the adapter's two lines; and a bus
      clock. */
  datatype BusEvent =
    | Access(devices: Devices, dma0: WfDma, dma1: WfDma)
    | Drift(devices: Devices)
    | ResetDevices
    | SetLock(rmc: Rmc)
    | SetCommit(committed: bool)
    | Adapter(request: bool, masterL: bool)
    | Tick(input: Input)

  /** `polled` chooses the clock that always polls; otherwise the source's. */
  function Apply(b: Board, e: BusEvent, polled: bool): (c: Board)
    requires BoardInv(b)
    ensures BoardInv(c)
  {
    match e
    case Access(v, d0, d1) => b.(devices := v, dma0 := d0, dma1 := d1, possible := true)
    case Drift(v) => b.(devices := v)
    case ResetDevices => b.(dma0 := RESET, dma1 := RESET)
    case SetLock(rmc) => b.(arbiter := b.arbiter.(cpu := b.arbiter.cpu.(rmc := rmc)))
    case SetCommit(k) => b.(arbiter := b.arbiter.(cpu := b.arbiter.cpu.(committed := k)))
    case Adapter(r, m) => b.(port := b.port.(request := r, masterL := m))
    case Tick(input) =>
      TickKeepsInv(b, input);
      if polled then PolledTick(b, input) else BusTick(b, input)
  }

  /** The board after the first `n` events. */
  function At(b: Board, events: seq<BusEvent>, n: nat, polled: bool): (c: Board)
    requires BoardInv(b) && n <= |events|
    ensures BoardInv(c)
  {
    if n == 0 then b else Apply(At(b, events, n - 1, polled), events[n - 1], polled)
  }

  function TickCount(events: seq<BusEvent>, n: nat): nat
    requires n <= |events|
  {
    if n == 0 then 0 else TickCount(events, n - 1) + if events[n - 1].Tick? then 1 else 0
  }

  // ----- exclusion -------------------------------------------------------------------

  /** At most one of the three drives the bus: the processor; the DMA controllers,
      on a clock that ran a transfer; the adapter, while it is acknowledged. */
  lemma OneDriver(b: Board, input: Input)
    requires BoardInv(b)
    ensures var t := BusTick(b, input);
            && (t.transfers != b.transfers ==> !MayRun(t) && !t.port.Holding() && t.arbiter.cpu.threeState)
            && (t.port.Holding() ==> !MayRun(t) && t.arbiter.cpu.threeState)
  {
    hide Transfer, React, Pending, Poll, Arbitrate, Selected;
    TickKeepsInv(b, input);
    PollKeepsInv(b);
    PollKeepsInv(Refresh(b));
    ArbitrateKeepsInv(Refresh(b));
    ArbitrateKeepsInv(Poll(Refresh(b)));
    HeldKeepsInv(Arbitrate(Poll(Refresh(b))), Selected(Refresh(b)), input);
    CountersKept(b);
  }

  /** Nothing before the held clock touches the transfer counters. */
  lemma CountersKept(b: Board)
    requires BoardInv(b)
    ensures forall c :: c in {Arbitrate(Refresh(b)), Arbitrate(Poll(Refresh(b)))} ==>
              && c.transfers == b.transfers && c.held == b.held && c.ticksLeft == b.ticksLeft
              && c.transferTicks == b.transferTicks && c.refreshInterval == Refresh(b).refreshInterval
              && c.ticks == Refresh(b).ticks && c.refreshLeft == Refresh(b).refreshLeft
              && c.refreshCycles == Refresh(b).refreshCycles && c.refreshHolding == Refresh(b).refreshHolding
  {
  }

  // ----- conservation of the bus ------------------------------------------------------

  function Occupancy(b: Board): nat { if b.transferTicks > 1 then b.transferTicks else 1 }

  /** Held clocks that belong to no transfer. */
  function Slack(b: Board): int { b.held + b.ticksLeft - b.transfers * Occupancy(b) }

  /** A held clock with no transfer in flight that did not start one. */
  predicate Wasted(b: Board, e: BusEvent, polled: bool)
    requires BoardInv(b)
  {
    var c := Apply(b, e, polled);
    c.held != b.held && b.ticksLeft == 0 && c.transfers == b.transfers
  }

  function WastedCount(b: Board, events: seq<BusEvent>, n: nat, polled: bool): nat
    requires BoardInv(b) && n <= |events|
  {
    if n == 0 then 0
    else WastedCount(b, events, n - 1, polled) +
         if Wasted(At(b, events, n - 1, polled), events[n - 1], polled) then 1 else 0
  }

  lemma HeldSlack(b: Board, selected: int, input: Input)
    requires b.dma0.Wf() && b.dma1.Wf()
    ensures var c := HeldClock(b, selected, input);
            && c.held == b.held + 1 && Occupancy(c) == Occupancy(b)
            && Slack(c) == Slack(b) + if b.ticksLeft == 0 && c.transfers == b.transfers then 1 else 0
  {
    hide Transfer, React;
    assert (b.transfers + 1) * Occupancy(b) == b.transfers * Occupancy(b) + Occupancy(b);
  }

  lemma TickSlack(b: Board, e: BusEvent, polled: bool)
    requires BoardInv(b)
    ensures var c := Apply(b, e, polled);
            Occupancy(c) == Occupancy(b) && Slack(c) == Slack(b) + if Wasted(b, e, polled) then 1 else 0
  {
    hide Transfer, React, Pending, Poll, Arbitrate, Selected, HeldClock;
    if e.Tick? {
      PollKeepsInv(b);
      PollKeepsInv(Refresh(b));
      ArbitrateKeepsInv(Poll(Refresh(b)));
      CountersKept(b);
      HeldSlack(Arbitrate(Poll(Refresh(b))), Selected(Refresh(b)), e.input);
    }
  }

  /** Over every run, every held clock is accounted for: the transfers' full length,
      less what the one in flight still has to run, plus the wasted clocks. */
  lemma {:induction false} BusConserved(b: Board, events: seq<BusEvent>, n: nat, polled: bool)
    requires BoardInv(b) && n <= |events|
    requires b.held == b.transfers == b.ticksLeft == 0
    ensures var c := At(b, events, n, polled);
            && c.held == c.transfers * Occupancy(b) - c.ticksLeft + WastedCount(b, events, n, polled)
            && c.held >= c.transfers * Occupancy(b) - c.ticksLeft
            && Occupancy(c) == Occupancy(b)
  {
    hide Apply, Wasted;
    if n > 0 {
      BusConserved(b, events, n - 1, polled);
      TickSlack(At(b, events, n - 1, polled), events[n - 1], polled);
    }
  }

  // ----- refresh ----------------------------------------------------------------------

  /** Refresh steals exactly one clock in `refreshInterval`, whatever else the bus
      does, and the clock it steals is lost to the processor. */
  lemma {:induction false} RefreshIsExact(b: Board, events: seq<BusEvent>, n: nat, polled: bool)
    requires BoardInv(b) && n <= |events|
    requires b.ticks == b.refreshCycles == 0 && !b.refreshHolding && b.refreshLeft == b.refreshInterval
    ensures var c, m := At(b, events, n, polled), TickCount(events, n);
            && c.ticks == m && c.refreshInterval == b.refreshInterval
            && (b.refreshInterval == 0 ==> c.refreshCycles == 0 && !c.refreshHolding)
            && (b.refreshInterval > 0 ==>
                  && c.refreshCycles == m / b.refreshInterval
                  && c.refreshLeft == b.refreshInterval - m % b.refreshInterval
                  && (c.refreshHolding <==> m > 0 && m % b.refreshInterval == 0))
    ensures At(b, events, n, polled).refreshHolding ==> !MayRun(At(b, events, n, polled))
  {
    hide Apply, ArbiterMayRun;
    if n > 0 {
      RefreshIsExact(b, events, n - 1, polled);
      RefreshedBy(At(b, events, n - 1, polled), events[n - 1], polled);
      if events[n - 1].Tick? && b.refreshInterval > 0 {
        NextQuotient(TickCount(events, n - 1), b.refreshInterval);
      }
    }
  }

  /** A clock moves the refresh counter once and no other event moves it. */
  lemma RefreshedBy(b: Board, e: BusEvent, polled: bool)
    requires BoardInv(b)
    ensures var c, r := Apply(b, e, polled), if e.Tick? then Refresh(b) else b;
            && c.ticks == r.ticks && c.refreshInterval == r.refreshInterval && c.refreshLeft == r.refreshLeft
            && c.refreshCycles == r.refreshCycles && c.refreshHolding == r.refreshHolding
  {
    hide Transfer, React, Pending, Poll, Arbitrate, Selected, ArbiterTick, HeldClock;
    if e.Tick? {
      hide Refresh;
      PollKeepsInv(b);
      PollKeepsInv(Refresh(b));
      ArbitrateKeepsInv(Poll(Refresh(b)));
      CountersKept(b);
      HeldKeepsRefresh(Arbitrate(Poll(Refresh(b))), Selected(Refresh(b)), e.input);
    }
  }

  lemma HeldKeepsRefresh(b: Board, selected: int, input: BoardBus.Input)
    requires b.dma0.Wf() && b.dma1.Wf()
    ensures var c := HeldClock(b, selected, input);
            && c.ticks == b.ticks && c.refreshInterval == b.refreshInterval && c.refreshLeft == b.refreshLeft
            && c.refreshCycles == b.refreshCycles && c.refreshHolding == b.refreshHolding
  {
  }

  lemma NextQuotient(m: nat, i: nat)
    requires i > 0
    ensures (m + 1) / i == m / i + (if m % i == i - 1 then 1 else 0)
    ensures (m + 1) % i == if m % i == i - 1 then 0 else m % i + 1
  {
    var q, r := m / i, m % i;
    assert m == i * q + r;
    if r == i - 1 {
      assert m + 1 == i * (q + 1);
      Division(m + 1, i, q + 1, 0);
    } else {
      Division(m + 1, i, q, r + 1);
    }
  }
}
