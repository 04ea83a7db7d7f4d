/** The board's bus as the emulator holds it: one object, clocked in place. */
module BusObject {
  import Words
  import opened Arbitration
  import opened Dma8237
  import opened BusMaster
  import opened BoardBus
  import BusRuns

  class CoreBoard {
    const dma0: I8237
    const dma1: I8237
    const arbiter: ArbiterPort
    const port: MasterPort
    var ticks: nat
    var refreshInterval: nat
    var refreshLeft: nat
    var refreshHolding: bool
    var refreshCycles: nat
    var possible: bool
    var devices: Devices
    var transferTicks: nat
    var ticksLeft: nat
    var held: nat
    var transfers: nat
    var requests: nat
    var unit: nat

    function View(): Board
      reads this, dma0, dma1, arbiter, arbiter.cpu, port
    {
      Board(ticks, refreshInterval, refreshLeft, refreshHolding, refreshCycles, possible,
            dma0.View(), dma1.View(), arbiter.View(), port.View(), devices,
            transferTicks, ticksLeft, held, transfers, requests, unit)
    }

    ghost predicate Valid()
      reads this, dma0, dma1, arbiter, arbiter.cpu, port
    {
      dma0 != dma1 && BoardInv(View())
    }

    /** A board at reset, with the poll armed. */
    constructor (refreshInterval: nat, transferTicks: nat, devices: Devices, channel: nat, drq: nat)
      requires channel < CHANNELS && drq != DMA_LINE
      ensures Valid() && possible && fresh(dma0) && fresh(dma1) && fresh(arbiter) && fresh(arbiter.cpu) && fresh(port)
      ensures ticks == refreshCycles == held == transfers == ticksLeft == requests == 0
      ensures refreshLeft == this.refreshInterval == refreshInterval && !refreshHolding
    {
      this.refreshInterval, this.refreshLeft, this.transferTicks, this.devices :=
        refreshInterval, refreshInterval, transferTicks, devices;
      ticks, refreshHolding, refreshCycles, possible := 0, false, 0, true;
      ticksLeft, held, transfers, requests, unit := 0, 0, 0, 0, 0;
      dma0 := new I8237();
      dma1 := new I8237();
      arbiter := new ArbiterPort();
      port := new MasterPort(channel, drq);
    }

    /** Either way of losing the bus. */
    method ProcessorMayRun() returns (may: bool)
      requires Valid()
      ensures may == MayRun(View())
    {
      may := !refreshHolding && !arbiter.cpu.threeState && arbiter.master == PROCESSOR;
    }

    method CountRefresh()
      requires refreshInterval > 0 ==> refreshLeft > 0
      modifies `ticks, `refreshLeft, `refreshHolding, `refreshCycles
      ensures View() == Refresh(old(View()))
    {
      ticks := ticks + 1;
      Countdown();
    }

    method Countdown()
      requires refreshInterval > 0 ==> refreshLeft > 0
      modifies `refreshLeft, `refreshHolding, `refreshCycles
      ensures refreshHolding <==> refreshInterval > 0 && old(refreshLeft) == 1
      ensures refreshCycles == old(refreshCycles) + if refreshHolding then 1 else 0
      ensures refreshLeft == if refreshInterval == 0 then old(refreshLeft)
                             else if refreshHolding then refreshInterval
                             else old(refreshLeft) - 1
    {
      refreshHolding := false;
      if refreshInterval != 0 {
        refreshLeft := refreshLeft - 1;
        if refreshLeft == 0 {
          refreshHolding := true;
          refreshCycles := refreshCycles + 1;
          refreshLeft := refreshInterval;
        }
      }
    }

    method ArbitrateBus()
      requires Valid()
      modifies dma0`dreq, arbiter, arbiter.cpu, port`state
      ensures Valid() && View() == Arbitrate(old(View()))
    {
      hide Pending, ArbiterTick;
      ghost var b := View();
      BusRuns.ArbitrateKeepsInv(b);
      arbiter.Tick();
      port.Tick(dma0, arbiter);
    }

    /** Drive every device pin and resolve the cascade between the controllers. */
    method DrivePins() returns (selected: int)
      requires Valid()
      modifies `devices, dma0`dreq, dma1`dreq
      ensures dma0.View() == Pins0(old(dma0.View()), old(devices))
      ensures dma1.View() == Pins1(old(dma1.View()), old(devices), Pending(dma0.View()) >= 0)
      ensures devices == old(devices).(ether := old(devices).ether.Sampled())
      ensures selected == Pending(dma1.View())
    {
      hide Pending;
      dma0.SetRequestPin(TAPE_CHANNEL, devices.tapeReading && devices.tapeByteReady);
      dma1.SetRequestPin(WINCHESTER_CHANNEL, devices.winchester);
      dma0.SetRequestPin(FLOPPY_CHANNEL, devices.floppy);
      dma1.SetRequestPin(ETHERNET_CHANNEL, devices.ether.Line());
      devices := devices.(ether := devices.ether.Sampled());
      var first := dma0.ServicePending();
      dma1.SetRequestPin(CASCADE_CHANNEL, first >= 0);
      selected := dma1.ServicePending();
    }

    /** The poll: the request it finds, and whether to poll again. */
    method PollDma() returns (selected: int)
      requires Valid()
      modifies `devices, `possible, `requests, dma0`dreq, dma1`dreq, arbiter
      ensures View() == Poll(old(View())) && selected == Selected(old(View()))
    {
      hide Pending, ArbiterInv, Pins0, Pins1, SetLine, AnyBit, Poll, Selected;
      PollParts(View());
      selected := FindRequest();
    }

    method FindRequest() returns (selected: int)
      requires Valid()
      modifies `devices, `possible, `requests, dma0`dreq, dma1`dreq, arbiter
      ensures dma0.View() == Pins0(old(dma0.View()), old(devices))
      ensures dma1.View() == Pins1(old(dma1.View()), old(devices), Pending(dma0.View()) >= 0)
      ensures selected == Pending(dma1.View())
      ensures arbiter.View() == SetLine(old(arbiter.View()), DMA_LINE, selected >= 0)
      ensures devices == old(devices).(ether := old(devices).ether.Sampled())
      ensures requests == old(requests) + if selected >= 0 then 1 else 0
      ensures possible == (selected >= 0 || AnyBit(dma0.dreq) || AnyBit(dma0.request) || AnyBit(dma1.dreq)
                           || AnyBit(dma1.request) || old(devices).tapeReading)
    {
      hide Pending, Pins0, Pins1, SetLine, AnyBit;
      selected := DrivePins();
      arbiter.Request(DMA_LINE, selected >= 0);
      var asking := AnyAsking();
      possible := selected >= 0 || asking || devices.tapeReading;
      requests := requests + if selected >= 0 then 1 else 0;
    }

    /** Whether a pin or a software request is up on either controller. */
    method AnyAsking() returns (asking: bool)
      requires dma0.View().Wf() && dma1.View().Wf()
      ensures asking == (AnyBit(dma0.dreq) || AnyBit(dma0.request) || AnyBit(dma1.dreq) || AnyBit(dma1.request))
    {
      AnyBitUp(dma0.dreq);
      AnyBitUp(dma0.request);
      AnyBitUp(dma1.dreq);
      AnyBitUp(dma1.request);
      hide AnyBit;
      asking := dma0.dreq != NO_BITS || dma0.request != NO_BITS || dma1.dreq != NO_BITS || dma1.request != NO_BITS;
    }

    /** A clock on which the DMA line is the bus master. */
    method Hold(selected: int, input: Input)
      requires dma0 != dma1 && dma0.View().Wf() && dma1.View().Wf()
      modifies `held, `ticksLeft, `unit, `transfers, `devices, dma0, dma1
      ensures View() == HeldClock(old(View()), selected, input)
    {
      hide Transfer, React, BoardInv, UnitOf, Pending, ArbiterPort.View, MasterPort.View;
      HeldFrame(View(), selected, input);
      if ticksLeft > 0 {
        ticksLeft := ticksLeft - 1;
      } else {
        Start(selected, input);
      }
      held := held + 1;
    }

    /** No transfer in flight: whose turn it is, and its one cycle. */
    method Start(selected: int, input: Input)
      requires dma0 != dma1 && dma0.View().Wf() && dma1.View().Wf() && ticksLeft == 0
      modifies `ticksLeft, `unit, `transfers, `devices, dma0, dma1
      ensures var c := HeldClock(old(View()), selected, input);
              && dma0.View() == c.dma0 && dma1.View() == c.dma1 && devices == c.devices
              && unit == c.unit && transfers == c.transfers && ticksLeft == c.ticksLeft
    {
      hide Transfer, React, ArbiterPort.View, MasterPort.View;
      unit := if selected == CASCADE_CHANNEL && dma1.channel[CASCADE_CHANNEL].Cascade() then 0 else 1;
      var cycle := RunUnit(input.fetched);
      if cycle.ran {
        transfers := transfers + 1;
        if transferTicks > 1 {
          ticksLeft := transferTicks - 1;
        }
        devices := React(devices, unit, cycle, input.reaction);
      }
    }

    method RunUnit(fetched: Words.byte) returns (cycle: Cycle)
      requires dma0 != dma1 && dma0.View().Wf() && dma1.View().Wf()
      modifies dma0, dma1
      ensures var t := Transfer(if unit == 0 then old(dma0.View()) else old(dma1.View()), fetched);
              && cycle == t.1
              && dma0.View() == (if unit == 0 then t.0 else old(dma0.View()))
              && dma1.View() == (if unit == 0 then old(dma1.View()) else t.0)
    {
      hide Transfer;
      if unit == 0 {
        cycle := dma0.RunTransfer(fetched);
      } else {
        cycle := dma1.RunTransfer(fetched);
      }
    }

    method Tick(input: Input)
      requires Valid()
      modifies this, dma0, dma1, arbiter, arbiter.cpu, port
      ensures Valid() && View() == BusTick(old(View()), input)
    {
      hide Poll, Refresh, Arbitrate, HeldClock, Selected;
      ghost var b := View();
      BusRuns.TickKeepsInv(b, input);
      PollKeepsInv(b);
      PollKeepsInv(Refresh(b));
      CountRefresh();
      if !possible {
        ArbitrateBus();
        return;
      }
      var selected := PollDma();
      ArbitrateBus();
      if arbiter.master != DMA_LINE {
        return;
      }
      Hold(selected, input);
    }

    /** A run of clocks, one at a time; the loop is the source's. */
    method Ticks(inputs: seq<Input>)
      requires Valid()
      modifies this, dma0, dma1, arbiter, arbiter.cpu, port
      ensures Valid() && View() == TicksOf(old(View()), inputs)
    {
      hide BusTick;
      var i := 0;
      while i < |inputs|
        invariant 0 <= i <= |inputs|
        invariant Valid() && View() == TicksOf(old(View()), inputs[..i])
      {
        Tick(inputs[i]);
        i := i + 1;
        assert inputs[..i][..i - 1] == inputs[..i - 1];
      }
      assert inputs[..i] == inputs;
    }
  }

  lemma AnyBitUp(s: seq<bool>)
    requires |s| == CHANNELS
    ensures AnyBit(s) <==> s != NO_BITS
  {
  }

  /** What the poll settles, part by part. */
  lemma PollParts(b: Board)
    requires b.dma0.Wf() && b.dma1.Wf()
    ensures var p, d0 := Poll(b), Pins0(b.dma0, b.devices);
            var d1 := Pins1(b.dma1, b.devices, Pending(d0) >= 0);
            && Selected(b) == Pending(d1)
            && p == b.(dma0 := d0, dma1 := d1, devices := b.devices.(ether := b.devices.ether.Sampled()),
                       arbiter := SetLine(b.arbiter, DMA_LINE, Pending(d1) >= 0), possible := p.possible,
                       requests := b.requests + if Pending(d1) >= 0 then 1 else 0)
            && p.possible == (Pending(d1) >= 0 || AnyBit(d0.dreq) || AnyBit(d0.request) || AnyBit(d1.dreq)
                              || AnyBit(d1.request) || b.devices.tapeReading)
  {
    hide Pending, Pins0, Pins1, AnyBit, SetLine;
  }

  /** What a held clock leaves alone. */
  lemma HeldFrame(b: Board, selected: int, input: Input)
    requires b.dma0.Wf() && b.dma1.Wf()
    ensures var c := HeldClock(b, selected, input);
            c == b.(dma0 := c.dma0, dma1 := c.dma1, devices := c.devices, held := c.held,
                    unit := c.unit, transfers := c.transfers, ticksLeft := c.ticksLeft)
  {
  }

  function TicksOf(b: Board, inputs: seq<Input>): (c: Board)
    requires BoardInv(b)
    ensures BoardInv(c)
  {
    if inputs == [] then b
    else
      var before := TicksOf(b, inputs[..|inputs| - 1]);
      BusRuns.TickKeepsInv(before, inputs[|inputs| - 1]);
      BusTick(before, inputs[|inputs| - 1])
  }

  /** Delivering a batch and then another is delivering the two in one. */
  lemma {:induction false} BatchesCompose(b: Board, first: seq<Input>, second: seq<Input>)
    requires BoardInv(b)
    ensures TicksOf(b, first + second) == TicksOf(TicksOf(b, first), second)
    decreases |second|
  {
    hide BusTick, BoardInv;
    if second == [] {
      assert first + second == first;
    } else {
      var n := |second| - 1;
      BatchesCompose(b, first, second[..n]);
      assert (first + second)[..|first + second| - 1] == first + second[..n];
    }
  }
}
