/** An adapter's route to the arbiter: a DMA channel in cascade mode, then MASTER.L. */
module BusMaster {
  import opened Arbitration
  import opened Dma8237

  datatype PortState = Idle | Requesting | Acknowledged | Owns

  datatype Port = Port(channel: nat, drq: nat, request: bool, masterL: bool, state: PortState) {
    predicate Holding() { state == Acknowledged || state == Owns }
  }

  function NextState(p: Port, master: int, selected: bool, cascade: bool): PortState {
    match p.state
    case Idle => if p.request then Requesting else Idle
    case Requesting =>
      if !p.request then Idle else if master == p.drq && selected then Acknowledged else Requesting
    case Acknowledged =>
      if p.masterL && cascade then Owns else if !p.request && !p.masterL then Idle else Acknowledged
    case Owns => if !p.request && !p.masterL then Idle else Owns
  }

  /** Whether the adapter's claim reaches the arbiter on this clock. */
  predicate Claims(p: Port, selected: bool) {
    (p.Holding() && (p.request || p.masterL)) || (p.request && selected)
  }

  function PortTick(p: Port, d: Dma, a: Arbiter): (r: (Port, Dma, Arbiter))
    requires d.Wf() && p.channel < CHANNELS
    ensures r.1 == SetPin(d, p.channel, p.request) && r.1.Wf()
  {
    var pinned := SetPin(d, p.channel, p.request);
    var selected := Pending(pinned) == p.channel;
    (p.(state := NextState(p, a.master, selected, pinned.channel[p.channel].Cascade())),
     pinned,
     SetLine(a, p.drq, Claims(p, selected)))
  }

  /** The adapter's port, changed in place. */
  class MasterPort {
    var channel: nat
    var drq: nat
    var request: bool
    var masterL: bool
    var state: PortState

    function View(): Port
      reads this
    {
      Port(channel, drq, request, masterL, state)
    }

    constructor (channel: nat, drq: nat)
      ensures View() == Port(channel, drq, false, false, Idle)
    {
      this.channel, this.drq, request, masterL, state := channel, drq, false, false, Idle;
    }

    method Tick(dma: I8237, arbiter: ArbiterPort)
      requires dma.View().Wf() && channel < CHANNELS && arbiter.Valid()
      modifies `state, dma`dreq, arbiter
      ensures (View(), dma.View(), arbiter.View()) == PortTick(old(View()), old(dma.View()), old(arbiter.View()))
      ensures arbiter.Valid()
    {
      dma.SetRequestPin(channel, request);
      var holding := state == Acknowledged || state == Owns;
      var claiming := if holding then request || masterL else false;
      var pending := dma.ServicePending();
      var selected := pending == channel;
      arbiter.Request(drq, claiming || (request && selected));
      match state {
        case Idle =>
          if request { state := Requesting; }
        case Requesting =>
          if !request {
            state := Idle;
          } else if arbiter.master == drq && selected {
            state := Acknowledged;
          }
        case Acknowledged =>
          if masterL && dma.channel[channel].Cascade() {
            state := Owns;
          } else if !request && !masterL {
            state := Idle;
          }
        case Owns =>
          if !request && !masterL { state := Idle; }
      }
    }
  }
}

/**
 * One bus clock of the core board: refresh stealing, the guarded DMA poll with its
 * two-controller cascade, arbitration, the external master, and multi-clock DMA
 * transfers. The devices are their request lines; the 802.3 card's line is kept in
 * full because sampling it changes it.
 */
module BoardBus {
  import opened Words
  import opened Arbitration
  import opened Dma8237
  import opened BusMaster

  const TAPE_CHANNEL: nat := 1        // controller 1
  const FLOPPY_CHANNEL: nat := 2      // controller 1
  const WINCHESTER_CHANNEL: nat := 3  // controller 2
  const ETHERNET_CHANNEL: nat := 2    // controller 2
  const CASCADE_CHANNEL: nat := 0     // controller 2
  const DMA_LINE: nat := 0
  const DEMAND_BURST: nat := 9

  /** The 802.3 card's demand-mode request. */
  datatype Ether = Ether(fitted: bool, enabled: bool, done: bool, hostReady: bool, burst: bool,
                         sincePause: nat, pauseOwed: bool)
  {
    predicate OnChannel() { fitted && enabled && !done }
    predicate Line() { OnChannel() && !pauseOwed && hostReady }
    /** Sampling the line pays a pause that is owed. */
    function Sampled(): Ether {
      if OnChannel() && pauseOwed then this.(pauseOwed := false, sincePause := 0) else this
    }
    function CycleRan(): Ether {
      if burst then this
      else this.(sincePause := sincePause + 1, pauseOwed := pauseOwed || sincePause + 1 >= DEMAND_BURST)
    }
  }

  datatype Devices = Devices(tapeReading: bool, tapeByteReady: bool, winchester: bool, floppy: bool, ether: Ether) {
    predicate TapeLine() { tapeReading && tapeByteReady }
  }

  datatype Board = Board(
    ticks: nat,
    refreshInterval: nat, refreshLeft: nat, refreshHolding: bool, refreshCycles: nat,
    possible: bool, dma0: Dma, dma1: Dma, arbiter: Arbiter, port: Port, devices: Devices,
    transferTicks: nat, ticksLeft: nat, held: nat, transfers: nat, requests: nat, unit: nat)

  /** What a transfer reads, and how the devices react to it. */
  datatype Input = Input(fetched: byte, reaction: Devices)

  /** What every event keeps. The adapter is on a line of its own, and holds its
      acknowledge only while it is the arbiter's master. */
  predicate BoardInv(b: Board) {
    && ArbiterInv(b.arbiter) && b.dma0.Wf() && b.dma1.Wf()
    && b.port.channel < CHANNELS && b.port.drq != DMA_LINE
    && (b.port.Holding() ==> b.arbiter.master == b.port.drq && b.arbiter.request[b.port.drq])
    && (b.refreshInterval > 0 ==> 1 <= b.refreshLeft <= b.refreshInterval)
  }

  // ----- one clock, as functions --------------------------------------------------

  function Refresh(b: Board): Board
    requires b.refreshInterval > 0 ==> b.refreshLeft > 0
  {
    var c := b.(ticks := b.ticks + 1, refreshHolding := false);
    if b.refreshInterval == 0 then c
    else if b.refreshLeft == 1 then
      c.(refreshHolding := true, refreshCycles := b.refreshCycles + 1, refreshLeft := b.refreshInterval)
    else c.(refreshLeft := b.refreshLeft - 1)
  }

  /** Controller 1 with its device pins driven. */
  function Pins0(d: Dma, v: Devices): (e: Dma)
    requires d.Wf()
    ensures e.Wf()
  {
    SetPin(SetPin(d, TAPE_CHANNEL, v.TapeLine()), FLOPPY_CHANNEL, v.floppy)
  }

  /** Controller 2, whose channel 0 carries controller 1's request. */
  function Pins1(d: Dma, v: Devices, cascade: bool): (e: Dma)
    requires d.Wf()
    ensures e.Wf()
  {
    SetPin(SetPin(SetPin(d, WINCHESTER_CHANNEL, v.winchester), ETHERNET_CHANNEL, v.ether.Line()),
           CASCADE_CHANNEL, cascade)
  }

  predicate AnyBit(s: seq<bool>) { exists i :: 0 <= i < |s| && s[i] }

  /** The channel controller 2 selects once every pin has been driven. */
  function Selected(b: Board): int
    requires b.dma0.Wf() && b.dma1.Wf()
  {
    Pending(Pins1(b.dma1, b.devices, Pending(Pins0(b.dma0, b.devices)) >= 0))
  }

  function Poll(b: Board): Board
    requires b.dma0.Wf() && b.dma1.Wf()
  {
    var d0 := Pins0(b.dma0, b.devices);
    var d1 := Pins1(b.dma1, b.devices, Pending(d0) >= 0);
    var selected := Pending(d1);
    var asking := selected >= 0 || AnyBit(d0.dreq) || AnyBit(d0.request) || AnyBit(d1.dreq) || AnyBit(d1.request);
    b.(dma0 := d0, dma1 := d1, devices := b.devices.(ether := b.devices.ether.Sampled()),
       arbiter := SetLine(b.arbiter, DMA_LINE, selected >= 0),
       possible := asking || b.devices.tapeReading,
       requests := b.requests + if selected >= 0 then 1 else 0)
  }

  function Arbitrate(b: Board): Board
    requires BoardInv(b)
  {
    var t := PortTick(b.port, b.dma0, ArbiterTick(b.arbiter));
    b.(port := t.0, dma0 := t.1, arbiter := t.2)
  }

  /** Which controller the clock belongs to. */
  function UnitOf(d1: Dma, selected: int): nat
    requires d1.Wf()
  {
    if selected == CASCADE_CHANNEL && d1.channel[CASCADE_CHANNEL].Cascade() then 0 else 1
  }

  predicate IsEtherCycle(v: Devices, unit: nat, channel: nat) {
    v.ether.fitted && unit == 1 && channel == ETHERNET_CHANNEL
  }

  /** The devices after a cycle: anything at all, except that the 802.3 card counts
      its own burst and is told of its own terminal count. */
  function React(before: Devices, unit: nat, cycle: Cycle, reaction: Devices): Devices {
    var accounted := reaction.ether.(sincePause := before.ether.sincePause, pauseOwed := before.ether.pauseOwed);
    var moved := cycle.op.DeviceToMemory? || cycle.op.MemoryToDevice?;
    var ether := if IsEtherCycle(before, unit, cycle.channel) && moved then accounted.CycleRan() else accounted;
    var ended := IsEtherCycle(before, unit, cycle.channel) && cycle.terminalCount;
    reaction.(ether := if ended then ether.(done := true) else ether)
  }

  /** A clock on which the DMA line is the bus master. */
  function HeldClock(b: Board, selected: int, input: Input): Board
    requires b.dma0.Wf() && b.dma1.Wf()
  {
    var h := b.(held := b.held + 1);
    if b.ticksLeft > 0 then h.(ticksLeft := b.ticksLeft - 1)
    else
      var unit := UnitOf(b.dma1, selected);
      var t := Transfer(if unit == 0 then b.dma0 else b.dma1, input.fetched);
      var after := if unit == 0 then h.(unit := unit, dma0 := t.0) else h.(unit := unit, dma1 := t.0);
      if !t.1.ran then after
      else after.(transfers := b.transfers + 1,
                  ticksLeft := if b.transferTicks > 1 then b.transferTicks - 1 else 0,
                  devices := React(b.devices, unit, t.1, input.reaction))
  }

  /** The clock with the poll always done. */
  function PolledTick(b: Board, input: Input): Board
    requires BoardInv(b)
  {
    PollKeepsInv(Refresh(b));
    var polled := Arbitrate(Poll(Refresh(b)));
    if polled.arbiter.master != DMA_LINE then polled
    else HeldClock(polled, Selected(Refresh(b)), input)
  }

  /** The clock as the source has it, skipping the poll when nothing can be asking. */
  function BusTick(b: Board, input: Input): Board
    requires BoardInv(b)
  {
    if !b.possible then Arbitrate(Refresh(b)) else PolledTick(b, input)
  }

  predicate MayRun(b: Board) {
    !b.refreshHolding && ArbiterMayRun(b.arbiter)
  }

  lemma PollKeepsInv(b: Board)
    requires BoardInv(b)
    ensures BoardInv(Poll(b)) && BoardInv(Refresh(b))
  {
  }
}
