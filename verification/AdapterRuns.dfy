/**
 * The adapter's way onto the bus and off it: it is acknowledged within a bounded number
 * of clocks of asking, keeps the bus while either of its lines is up, and is off it two
 * clocks after both are down.
 */
module AdapterRuns {
  import opened Arbitration
  import opened Dma8237
  import opened BusMaster

  /** The three parts that move together on a clock. */
  datatype Trio = Trio(port: Port, dma: Dma, arbiter: Arbiter) {
    predicate Wf() { dma.Wf() && port.channel < CHANNELS && port.drq < REQUESTERS && ArbiterInv(arbiter) }
  }

  /** The arbiter's clock, then the adapter's. */
  function Tick(t: Trio): (u: Trio)
    requires t.Wf()
    ensures u.Wf()
  {
    ArbiterTickSafety(t.arbiter);
    var r := PortTick(t.port, t.dma, ArbiterTick(t.arbiter));
    Trio(r.0, r.1, r.2)
  }

  function Ticks(t: Trio, n: nat): (u: Trio)
    requires t.Wf()
    ensures u.Wf()
    decreases n
  {
    if n == 0 then t else Ticks(Tick(t), n - 1)
  }

  /** The adapter asks, its channel is the one its controller selects, no line above its
      own is up, and the processor neither locks the bus nor defers. */
  predicate Asks(t: Trio) {
    && t.Wf() && t.port.request && Pending(SetPin(t.dma, t.port.channel, true)) == t.port.channel
    && (forall i :: 0 <= i < t.port.drq ==> !t.arbiter.request[i])
    && t.arbiter.cpu.rmc == RmcNone && !t.arbiter.cpu.committed
  }

  /** Asking, with its line up. */
  predicate Waits(t: Trio) {
    Asks(t) && t.port.state == Requesting && t.arbiter.request[t.port.drq] && t.arbiter.master == PROCESSOR
  }

  /** On the bus, acknowledged or owning. */
  predicate Holds(t: Trio) {
    && t.Wf() && (t.port.state == Acknowledged || t.port.state == Owns)
    && t.arbiter.request[t.port.drq] && t.arbiter.master == t.port.drq
  }

  lemma AsksStill(t: Trio)
    requires Asks(t)
    ensures var u := Tick(t);
            && Asks(u) && u.arbiter.request[t.port.drq]
            && u.port == t.port.(state := u.port.state)
            && u.arbiter.cpu == ArbiterTick(t.arbiter).cpu && u.arbiter.master == ArbiterTick(t.arbiter).master
            && u.port.state == NextState(t.port, u.arbiter.master, true, u.dma.channel[t.port.channel].Cascade())
  {
    hide ArbiterTick, Pending, ArbiterInv;
    ArbiterTickSafety(t.arbiter);
    LinesAre(t.arbiter);
    var d := SetPin(t.dma, t.port.channel, true);
    assert SetPin(d, t.port.channel, true) == d;
  }

  lemma LinesAre(a: Arbiter)
    requires ArbiterInv(a)
    ensures |a.request| == REQUESTERS
  {
  }

  /** With its line up it is acknowledged on exactly the clock the handover falls on. */
  lemma {:induction false} AcknowledgedInTurn(t: Trio)
    requires Waits(t)
    ensures var u := Ticks(t, GrantWait(t.arbiter.cpu));
            Asks(u) && Holds(u) && u.port.state == Acknowledged && u.port.drq == t.port.drq
    decreases GrantWait(t.arbiter.cpu)
  {
    hide ArbiterTick, Pending, ArbiterInv, GrantWait;
    AsksStill(t);
    LinesAre(t.arbiter);
    HighestUnique(t.arbiter.request, t.port.drq, Highest(t.arbiter.request));
    GrantProgress(t.arbiter);
    var u := Tick(t);
    if GrantWait(t.arbiter.cpu) == 1 {
      assert Ticks(t, 1) == Ticks(u, 0) == u;
    } else {
      AcknowledgedInTurn(u);
    }
  }

  /** However it starts, asking is answered within six clocks, if no other line is up
      before its own. */
  lemma Acknowledges(t: Trio) returns (n: nat)
    requires Asks(t) && t.arbiter.master == PROCESSOR && (t.port.state == Idle || t.port.state == Requesting)
    requires t.arbiter.request[t.port.drq] || forall i :: 0 <= i < REQUESTERS ==> !t.arbiter.request[i]
    ensures n <= 6 && Holds(Ticks(t, n)) && Ticks(t, n).port.state == Acknowledged
    ensures Ticks(t, n).arbiter.master == t.port.drq
  {
    hide ArbiterTick, Pending, ArbiterInv, GrantWait;
    AsksStill(t);
    ArbiterTickSafety(t.arbiter);
    LinesAre(t.arbiter);
    var u := Tick(t);
    if u.arbiter.master == PROCESSOR {
      AcknowledgedInTurn(u);
      n := 1 + GrantWait(u.arbiter.cpu);
    } else if u.port.state == Acknowledged {
      n := 1;
      assert Ticks(t, 1) == Ticks(u, 0) == u;
    } else {
      n := 2;
      AsksStill(u);
      ArbiterTickSafety(u.arbiter);
      assert Ticks(t, 2) == Ticks(u, 1) == Ticks(Tick(u), 0);
    }
  }

  /** One clock of holding: while either of its lines is up the adapter keeps the bus, and
      owns it from the clock its MASTER.L is up on a cascade channel; when both are down it
      is idle and its line is dropped. */
  lemma HoldsOrLeaves(t: Trio)
    requires Holds(t)
    ensures var u := Tick(t);
            && u.arbiter.master == t.port.drq
            && (t.port.request || t.port.masterL ==> Holds(u))
            && (t.port.state == Owns && (t.port.request || t.port.masterL) ==> u.port.state == Owns)
            && (t.port.state == Acknowledged && t.port.masterL ==>
                  u.port.state == if t.dma.channel[t.port.channel].Cascade() then Owns else Acknowledged)
            && (!t.port.request && !t.port.masterL ==> u.port.state == Idle && !u.arbiter.request[t.port.drq])
  {
    hide ArbiterTick, Pending, ArbiterInv;
    ArbiterTickSafety(t.arbiter);
    LinesAre(t.arbiter);
  }

  /** So it keeps the bus for any number of clocks its lines stand. */
  lemma {:induction false} HoldsThroughout(t: Trio, n: nat)
    requires Holds(t) && (t.port.request || t.port.masterL)
    ensures Holds(Ticks(t, n))
    decreases n
  {
    hide ArbiterTick, Pending, ArbiterInv;
    if n > 0 {
      HoldsOrLeaves(t);
      HoldsThroughout(Tick(t), n - 1);
    }
  }

  /** And is off it two clocks after both are down. */
  lemma LeavesTheBus(t: Trio)
    requires Holds(t) && !t.port.request && !t.port.masterL
    ensures Ticks(t, 2).arbiter.master == PROCESSOR && Ticks(t, 2).port.state == Idle
  {
    hide ArbiterTick, Pending, ArbiterInv;
    HoldsOrLeaves(t);
    ArbiterTickSafety(Tick(t).arbiter);
    LinesAre(Tick(t).arbiter);
    assert Ticks(t, 2) == Ticks(Tick(t), 1) == Ticks(Tick(Tick(t)), 0);
  }
}
