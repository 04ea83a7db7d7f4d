/**
 * Skipping the DMA poll when nothing can be asking: exactly when it is invisible.
 */
module GuardedPoll {
  import opened Arbitration
  import opened Dma8237
  import opened BusMaster
  import opened BoardBus
  import opened BusRuns

  /** Equal but for the flag itself, which is derived and not part of the machine. */
  predicate Same(g: Board, p: Board) {
    g.(possible := true) == p.(possible := true)
  }

  predicate NoBits(s: seq<bool>) { forall i :: 0 <= i < |s| ==> !s[i] }

  /** What the board looks like whenever the flag is down: no request anywhere,
      except that the adapter's own pin is driven after the poll. */
  predicate GuardInv(b: Board)
    requires BoardInv(b)
  {
    !b.possible ==>
      && !b.arbiter.request[DMA_LINE]
      && NoBits(b.dma0.request) && NoBits(b.dma1.request) && NoBits(b.dma1.dreq)
      && forall c :: 0 <= c < CHANNELS && c != b.port.channel ==> !b.dma0.dreq[c]
  }

  predicate EtherQuiet(e: Ether) {
    e.OnChannel() ==> !e.pauseOwed && !e.hostReady
  }

  /** A poll now would find nothing and disturb nothing. All of it can be read off
      the board before the clock. */
  predicate Quiet(b: Board)
    requires b.dma0.Wf()
  {
    && (b.devices.TapeLine() ==> b.port.channel == TAPE_CHANNEL)
    && (b.devices.floppy ==> b.port.channel == FLOPPY_CHANNEL)
    && !b.devices.winchester && EtherQuiet(b.devices.ether)
    && Pending(Pins0(b.dma0, b.devices)) < 0
  }

  // ----- one clock ------------------------------------------------------------------

  lemma TransferKeepsPins(d: Dma, fetched: Words.byte)
    requires d.Wf()
    ensures Transfer(d, fetched).0.dreq == d.dreq
  {
  }

  lemma HeldKeepsPins(b: Board, selected: int, input: Input)
    requires b.dma0.Wf() && b.dma1.Wf()
    ensures var c := HeldClock(b, selected, input);
            c.dma0.dreq == b.dma0.dreq && c.dma1.dreq == b.dma1.dreq && c.requests == b.requests
  {
    hide Transfer, React;
    TransferKeepsPins(b.dma0, input.fetched);
    TransferKeepsPins(b.dma1, input.fetched);
  }

  /** The pins and the request count a polled clock ends with. */
  lemma PolledPins(b: Board, input: Input)
    requires BoardInv(b)
    ensures var c := PolledTick(b, input);
            && c.dma0.dreq == SetPin(Pins0(b.dma0, b.devices), b.port.channel, b.port.request).dreq
            && c.dma1.dreq == Pins1(b.dma1, b.devices, Pending(Pins0(b.dma0, b.devices)) >= 0).dreq
            && c.requests == b.requests + (if Selected(b) >= 0 then 1 else 0)
            && (Selected(b) < 0 ==> c.devices.ether == b.devices.ether.Sampled())
  {
    hide Pending, ArbiterTick, Poll, Pins0, Pins1, SetPin, HeldClock, Arbitrate, Refresh, Selected, Ether.Sampled;
    RefreshKeepsLines(b);
    PollKeepsInv(b);
    PollKeepsInv(Refresh(b));
    PollPins(Refresh(b));
    ArbitratePins(Poll(Refresh(b)));
    ArbitrateKeepsInv(Poll(Refresh(b)));
    HeldKeepsPins(Arbitrate(Poll(Refresh(b))), Selected(Refresh(b)), input);
    HeldOnlyWhileAsking(b);
  }

  lemma PollPins(r: Board)
    requires r.dma0.Wf() && r.dma1.Wf()
    ensures var q, d0 := Poll(r), Pins0(r.dma0, r.devices);
            && q.dma0 == d0 && q.dma1 == Pins1(r.dma1, r.devices, Pending(d0) >= 0)
            && q.requests == r.requests + (if Selected(r) >= 0 then 1 else 0)
            && q.devices.ether == r.devices.ether.Sampled() && q.port == r.port
  {
  }

  lemma RefreshKeepsLines(b: Board)
    requires BoardInv(b)
    ensures var r := Refresh(b);
            && r.dma0 == b.dma0 && r.dma1 == b.dma1 && r.devices == b.devices && r.port == b.port
            && r.arbiter == b.arbiter && r.transfers == b.transfers
            && r.requests == b.requests && Selected(r) == Selected(b)
  {
  }

  lemma ArbitratePins(q: Board)
    requires BoardInv(q)
    ensures var c := Arbitrate(q);
            && c.dma0 == SetPin(q.dma0, q.port.channel, q.port.request) && c.dma1 == q.dma1
            && c.requests == q.requests && c.devices == q.devices
            && c.transfers == q.transfers && c.possible == q.possible && c.port.channel == q.port.channel
  {
  }

  lemma SkippedPins(b: Board, input: Input)
    requires BoardInv(b) && !b.possible
    ensures var c := BusTick(b, input);
            && c.dma0.dreq == SetPin(b.dma0, b.port.channel, b.port.request).dreq
            && c.dma1 == b.dma1 && c.requests == b.requests && c.devices == b.devices
            && c.transfers == b.transfers && !c.possible
  {
  }

  lemma QuietPollIsNothing(b: Board)
    requires BoardInv(b) && GuardInv(b) && !b.possible && Quiet(b)
    ensures var p := Poll(b);
            && p == b.(possible := p.possible, dma0 := p.dma0)
            && SetPin(p.dma0, b.port.channel, b.port.request) == SetPin(b.dma0, b.port.channel, b.port.request)
  {
  }

  lemma QuietSkip(b: Board, input: Input)
    requires BoardInv(b) && GuardInv(b) && !b.possible && Quiet(b)
    ensures Same(BusTick(b, input), PolledTick(b, input))
  {
    hide Pending, ArbiterTick, Transfer, HeldClock, Poll;
    PollKeepsInv(b);
    PollKeepsInv(Refresh(b));
    QuietPollIsNothing(Refresh(b));
    HeldOnlyWhileAsking(b);
  }

  /** For one clock, both ways: the skipped poll leaves no trace if and only if a
      poll would have found nothing. */
  lemma SkipIsExact(b: Board, input: Input)
    requires BoardInv(b) && GuardInv(b) && !b.possible
    ensures Same(BusTick(b, input), PolledTick(b, input)) <==> Quiet(b)
  {
    if Quiet(b) {
      QuietSkip(b, input);
    } else {
      LoudSkip(b, input);
    }
  }

  lemma LoudSkip(b: Board, input: Input)
    requires BoardInv(b) && GuardInv(b) && !b.possible && !Quiet(b)
    ensures !Same(BusTick(b, input), PolledTick(b, input))
  {
    hide BusTick, PolledTick, Selected;
    PolledPins(b, input);
    SkippedPins(b, input);
    var g, p := BusTick(b, input), PolledTick(b, input);
    if b.devices.winchester {
      assert p.dma1.dreq[WINCHESTER_CHANNEL] && !g.dma1.dreq[WINCHESTER_CHANNEL];
    } else if b.devices.ether.Line() {
      assert p.dma1.dreq[ETHERNET_CHANNEL] && !g.dma1.dreq[ETHERNET_CHANNEL];
    } else if Pending(Pins0(b.dma0, b.devices)) >= 0 {
      assert p.dma1.dreq[CASCADE_CHANNEL] && !g.dma1.dreq[CASCADE_CHANNEL];
    } else if b.devices.TapeLine() && b.port.channel != TAPE_CHANNEL {
      assert p.dma0.dreq[TAPE_CHANNEL] && !g.dma0.dreq[TAPE_CHANNEL];
    } else if b.devices.floppy && b.port.channel != FLOPPY_CHANNEL {
      assert p.dma0.dreq[FLOPPY_CHANNEL] && !g.dma0.dreq[FLOPPY_CHANNEL];
    } else {
      assert g.devices.ether.pauseOwed;
      assert g.requests != p.requests || !p.devices.ether.pauseOwed;
    }
  }

  // ----- every run --------------------------------------------------------------------

  /** The always-polling clock never looks at the flag. */
  lemma PolledIgnoresFlag(g: Board, p: Board, input: Input)
    requires BoardInv(g) && BoardInv(p) && Same(g, p)
    ensures PolledTick(g, input) == PolledTick(p, input)
  {
    hide Pending, ArbiterTick, HeldClock, Poll, Arbitrate, Selected, BoardInv;
    PollKeepsInv(g);
    PollKeepsInv(p);
    PollIgnoresFlag(Refresh(g), Refresh(p));
  }

  lemma PollIgnoresFlag(g: Board, p: Board)
    requires g.dma0.Wf() && g.dma1.Wf() && p.dma0.Wf() && p.dma1.Wf() && Same(g, p)
    ensures Poll(g) == Poll(p) && Selected(g) == Selected(p)
  {
  }

  lemma GuardInvKept(b: Board, e: BusEvent)
    requires BoardInv(b) && GuardInv(b)
    ensures GuardInv(Apply(b, e, false))
  {
    if e.Tick? {
      TickKeepsInv(b, e.input);
      if b.possible {
        if !PolledTick(b, e.input).possible { PolledFallsQuiet(b, e.input); }
      } else {
        SkippedKeepsGuard(b, e.input);
      }
    }
  }

  lemma SkippedKeepsGuard(b: Board, input: Input)
    requires BoardInv(b) && GuardInv(b) && !b.possible && BoardInv(BusTick(b, input))
    ensures GuardInv(BusTick(b, input))
  {
    hide Pending, ArbiterTick;
    PollKeepsInv(b);
    ArbitrateKeepsInv(Refresh(b));
  }

  /** A poll that lets the flag fall has seen every line down and no software
      request, and the bus was not the DMA line's on that clock. */
  lemma PolledFallsQuiet(b: Board, input: Input)
    requires BoardInv(b) && BoardInv(PolledTick(b, input)) && !PolledTick(b, input).possible
    ensures GuardInv(PolledTick(b, input))
    ensures !b.devices.tapeReading && !b.devices.winchester && !b.devices.floppy && !b.devices.ether.Line()
    ensures PolledTick(b, input).devices == b.devices.(ether := b.devices.ether.Sampled())
    ensures PolledTick(b, input).transfers == b.transfers
    ensures NoBits(SetPin(PolledTick(b, input).dma0, b.port.channel, false).dreq)
  {
    hide PolledTick, Selected;
    PolledPins(b, input);
    PolledRest(b, input);
    var c, d0 := PolledTick(b, input), Pins0(b.dma0, b.devices);
    hide Pending, Pins0, Pins1;
    assert c.dma0.dreq == d0.dreq[b.port.channel := b.port.request];
  }

  /** The rest of what a poll that found nothing leaves behind. */
  lemma PolledRest(b: Board, input: Input)
    requires BoardInv(b) && BoardInv(PolledTick(b, input)) && !PolledTick(b, input).possible
    ensures var c := PolledTick(b, input);
            && Selected(b) < 0 && !c.arbiter.request[DMA_LINE] && c.port.channel == b.port.channel
            && c.dma0.Wf() && c.dma1.Wf() && NoBits(c.dma0.request) && NoBits(c.dma1.request) && NoBits(c.dma1.dreq)
            && NoBits(Pins0(b.dma0, b.devices).dreq)
            && !b.devices.tapeReading && !b.devices.winchester && !b.devices.floppy && !b.devices.ether.Line()
            && c.devices == b.devices.(ether := b.devices.ether.Sampled()) && c.transfers == b.transfers
  {
    hide Pending, ArbiterTick, HeldClock, Poll, Arbitrate, Pins0, Pins1, SetPin, Refresh, Selected;
    RefreshKeepsLines(b);
    PollKeepsInv(b);
    PollKeepsInv(Refresh(b));
    var q := Poll(Refresh(b));
    PollPins(Refresh(b));
    ArbitratePins(q);
    ArbitrateKeepsInv(q);
    HeldKeepsInv(Arbitrate(q), Selected(Refresh(b)), input);
    PollFoundNothing(Refresh(b));
    HeldOnlyWhileAsking(b);
    PinsKeepRequests(q.dma0, q.port.channel, q.port.request);
  }

  lemma PinsKeepRequests(d: Dma, c: nat, asserted: bool)
    requires d.Wf()
    ensures SetPin(d, c, asserted).request == d.request
  {
  }

  lemma PollFoundNothing(r: Board)
    requires r.dma0.Wf() && r.dma1.Wf() && |r.arbiter.request| == REQUESTERS
    ensures var q := Poll(r);
            !q.possible ==>
              && Selected(r) < 0 && !q.arbiter.request[DMA_LINE] && q.port == r.port
              && NoBits(q.dma0.dreq) && NoBits(q.dma0.request) && NoBits(q.dma1.dreq) && NoBits(q.dma1.request)
              && !r.devices.tapeReading && !r.devices.winchester && !r.devices.floppy && !r.devices.ether.Line()
              && q.devices == r.devices.(ether := r.devices.ether.Sampled()) && q.transfers == r.transfers
  {
    hide Pending;
    var q := Poll(r);
    if !q.possible {
      assert NoBits(q.dma0.dreq) && NoBits(q.dma1.dreq);
      assert !q.dma1.dreq[WINCHESTER_CHANNEL] && !q.dma1.dreq[ETHERNET_CHANNEL] && !q.dma0.dreq[FLOPPY_CHANNEL];
    }
  }

  predicate SkippedQuietly(b: Board, e: BusEvent)
    requires b.dma0.Wf()
  {
    e.Tick? && !b.possible ==> Quiet(b)
  }

  lemma {:induction false} GuardInvAt(b: Board, events: seq<BusEvent>, n: nat)
    requires BoardInv(b) && GuardInv(b) && n <= |events|
    ensures GuardInv(At(b, events, n, false))
  {
    hide Apply, GuardInv;
    if n > 0 {
      GuardInvAt(b, events, n - 1);
      GuardInvKept(At(b, events, n - 1, false), events[n - 1]);
    }
  }

  /** One event from boards that agree: they go on agreeing exactly when the skip,
      if there was one, was quiet. */
  lemma AgreeStep(g: Board, p: Board, e: BusEvent)
    requires BoardInv(g) && BoardInv(p) && GuardInv(g) && Same(g, p)
    ensures Same(Apply(g, e, false), Apply(p, e, true)) <==> SkippedQuietly(g, e)
  {
    hide Pending, ArbiterTick, HeldClock, Quiet, Poll, Arbitrate, PolledTick;
    if e.Tick? {
      TickKeepsInv(g, e.input);
      PolledIgnoresFlag(g, p, e.input);
      if !g.possible {
        SkipIsExact(g, e.input);
      }
    }
  }

  predicate Agree(b: Board, events: seq<BusEvent>, n: nat)
    requires BoardInv(b) && n <= |events|
  {
    Same(At(b, events, n, false), At(b, events, n, true))
  }

  predicate QuietlyAt(b: Board, events: seq<BusEvent>, n: nat)
    requires BoardInv(b) && n < |events|
  {
    SkippedQuietly(At(b, events, n, false), events[n])
  }

  /** Over whole runs, from any board, under any events: the board that skips the
      poll and the board that always polls agree after every event if and only if
      every clock that skipped it was quiet. */
  lemma {:induction false} GuardInvisibleIff(b: Board, events: seq<BusEvent>, n: nat)
    requires BoardInv(b) && GuardInv(b) && n <= |events|
    ensures (forall k :: 0 <= k <= n ==> Agree(b, events, k)) <==> (forall k :: 0 <= k < n ==> QuietlyAt(b, events, k))
  {
    hide Agree, QuietlyAt, GuardInv, BoardInv;
    if n > 0 {
      GuardInvisibleIff(b, events, n - 1);
      if Agree(b, events, n - 1) {
        AgreeNext(b, events, n - 1);
      }
    } else {
      AgreeAtStart(b, events);
    }
  }

  lemma AgreeAtStart(b: Board, events: seq<BusEvent>)
    requires BoardInv(b)
    ensures Agree(b, events, 0)
  {
  }

  lemma AgreeNext(b: Board, events: seq<BusEvent>, n: nat)
    requires BoardInv(b) && GuardInv(b) && n < |events| && Agree(b, events, n)
    ensures Agree(b, events, n + 1) <==> QuietlyAt(b, events, n)
  {
    hide Same, SkippedQuietly, Apply, GuardInv, BoardInv;
    GuardInvAt(b, events, n);
    AgreeStep(At(b, events, n, false), At(b, events, n, true), events[n]);
  }

  // ----- the source's own argument, and where it fails ------------------------------------

  predicate AtRest(v: Devices) {
    !v.tapeReading && !v.winchester && !v.floppy && EtherQuiet(v.ether)
  }

  /** The assumption the guard is written on: devices at rest stay so until software
      reaches them, nothing drives the adapter, and no poll takes a demand-mode
      pause. */
  predicate Tame(b: Board, e: BusEvent) {
    match e
    case Drift(v) => AtRest(b.devices) ==> AtRest(v)
    case Adapter(r, _) => !r
    case Tick(_) => b.possible && b.devices.ether.OnChannel() ==> !b.devices.ether.pauseOwed
    case _ => true
  }

  predicate TameInv(b: Board) {
    !b.port.request && (!b.possible ==> AtRest(b.devices) && NoBits(b.dma0.dreq) && NoBits(b.dma0.request))
  }

  lemma TameIsQuiet(b: Board)
    requires BoardInv(b) && TameInv(b) && !b.possible
    ensures Quiet(b)
  {
  }

  lemma TameKept(b: Board, e: BusEvent)
    requires BoardInv(b) && TameInv(b) && Tame(b, e)
    ensures TameInv(Apply(b, e, false))
  {
    if e.Tick? {
      hide BusTick, AtRest, BoardInv;
      TickKeepsInv(b, e.input);
      PortKept(b, e.input);
      TickTame(b, e.input);
    }
  }

  lemma TickTame(b: Board, input: Input)
    requires BoardInv(b) && TameInv(b) && Tame(b, Tick(input))
    ensures var c := BusTick(b, input);
            !c.possible ==> AtRest(c.devices) && NoBits(c.dma0.dreq) && NoBits(c.dma0.request)
  {
    hide PolledTick;
    if !b.possible {
      hide BusTick;
      PinAlreadyDown(b.dma0, b.port.channel);
      SkippedPins(b, input);
      SkippedKeepsSoftware(b, input);
    } else {
      TickKeepsInv(b, input);
      if !PolledTick(b, input).possible {
        PolledFallsQuiet(b, input);
        PolledChannelPin(b, input);
        PinAlreadyDown(PolledTick(b, input).dma0, b.port.channel);
      }
    }
  }

  lemma PinAlreadyDown(d: Dma, c: nat)
    requires d.Wf() && c < CHANNELS && !d.dreq[c]
    ensures SetPin(d, c, false) == d
  {
  }

  lemma PolledChannelPin(b: Board, input: Input)
    requires BoardInv(b)
    ensures PolledTick(b, input).dma0.Wf() && b.port.channel < CHANNELS
    ensures PolledTick(b, input).dma0.dreq[b.port.channel] == b.port.request
  {
    hide PolledTick, Pins1;
    TickKeepsInv(b, input);
    PolledPins(b, input);
  }

  lemma SkippedKeepsSoftware(b: Board, input: Input)
    requires BoardInv(b) && !b.possible
    ensures BusTick(b, input).dma0.request == b.dma0.request
  {
  }

  lemma PortKept(b: Board, input: Input)
    requires BoardInv(b)
    ensures BusTick(b, input).port.request == b.port.request
  {
    hide Pending, ArbiterTick, HeldClock, Poll, Selected;
    PollKeepsInv(b);
    PollKeepsInv(Refresh(b));
    PollKeepsPort(Refresh(b));
    ArbitrateKeepsInv(Poll(Refresh(b)));
    HeldKeepsInv(Arbitrate(Poll(Refresh(b))), Selected(Refresh(b)), input);
  }

  lemma PollKeepsPort(b: Board)
    requires b.dma0.Wf() && b.dma1.Wf()
    ensures Poll(b).port == b.port
  {
  }

  predicate TameAt(b: Board, events: seq<BusEvent>, k: nat)
    requires BoardInv(b) && k < |events|
  {
    Tame(At(b, events, k, false), events[k])
  }

  lemma {:induction false} TameRunKept(b: Board, events: seq<BusEvent>, n: nat)
    requires BoardInv(b) && TameInv(b) && n <= |events|
    requires forall k :: 0 <= k < n ==> TameAt(b, events, k)
    ensures TameInv(At(b, events, n, false))
  {
    hide Apply, TameInv, Tame;
    if n > 0 {
      TameRunKept(b, events, n - 1);
      assert TameAt(b, events, n - 1);
      TameKept(At(b, events, n - 1, false), events[n - 1]);
    }
  }

  /** On every run that keeps to the assumption, the skipped poll is invisible. */
  lemma GuardInvisibleWhenTame(b: Board, events: seq<BusEvent>)
    requires BoardInv(b) && GuardInv(b) && TameInv(b)
    requires forall k :: 0 <= k < |events| ==> TameAt(b, events, k)
    ensures forall k :: 0 <= k <= |events| ==> Agree(b, events, k)
  {
    hide Apply, GuardInv, TameInv, Tame;
    forall k | 0 <= k < |events|
      ensures QuietlyAt(b, events, k)
    {
      TameRunKept(b, events, k);
      var g := At(b, events, k, false);
      if events[k].Tick? && !g.possible {
        TameIsQuiet(g);
      }
    }
    GuardInvisibleIff(b, events, |events|);
  }

  predicate AllTicks(events: seq<BusEvent>) {
    forall k :: 0 <= k < |events| ==> events[k].Tick?
  }

  /** With the flag down, clocks alone never transfer again. */
  lemma {:induction false} FlagDownIsFinal(b: Board, events: seq<BusEvent>, n: nat)
    requires BoardInv(b) && !b.possible && n <= |events| && AllTicks(events)
    ensures var c := At(b, events, n, false);
            !c.possible && c.transfers == b.transfers && c.devices == b.devices
  {
    hide BusTick, BoardInv;
    if n > 0 {
      FlagDownIsFinal(b, events, n - 1);
      SkippedPins(At(b, events, n - 1, false), events[n - 1].input);
    }
  }

  /** A transfer in progress on the 802.3 channel, at the ninth byte, with nothing
      else asking. */
  predicate AtDemandPause(b: Board) {
    && BoardInv(b) && b.possible && !b.port.request
    && b.devices.ether.OnChannel() && b.devices.ether.hostReady && b.devices.ether.pauseOwed
    && !b.devices.tapeReading && !b.devices.winchester && !b.devices.floppy
    && NoBits(b.dma0.request) && NoBits(b.dma1.request)
    && !b.dma0.dreq[0] && !b.dma0.dreq[3] && !b.dma1.dreq[1]
  }

  /** Where the assumption fails: the poll that pays the card's own pause finds no
      line up and lets the flag fall, with the card asking again on the very next
      sample. No number of further clocks transfers another byte, while the board
      that always polls raises the line at once. */
  lemma DemandPauseStallsGuard(b: Board, input: Input, t: Board, events: seq<BusEvent>, n: nat)
    requires AtDemandPause(b) && t == BusTick(b, input) && BoardInv(t)
    requires AllTicks(events) && n <= |events|
    ensures !t.possible && t.devices.ether.Line()
    ensures At(t, events, n, false).transfers == b.transfers
    ensures PolledTick(t, input).dma1.Wf() && PolledTick(t, input).dma1.dreq[ETHERNET_CHANNEL]
    ensures !Same(BusTick(t, input), PolledTick(t, input))
  {
    hide PolledTick, BusTick, Same, Quiet, BoardInv, GuardInv, Ether.OnChannel;
    PauseFalls(b, input);
    PausedTick(b, input);
    FlagDownIsFinal(t, events, n);
    LineIsLoud(t, input);
    SkipIsExact(t, input);
  }

  /** The other failure: an adapter on channel 0 or 3 has its pin driven after the poll,
      so the poll before it has let the flag fall. Once the pin is up and unmasked on an
      enabled part, the next skipped poll would have found it. */
  lemma AdapterPinIsLoud(b: Board, input: Input)
    requires BoardInv(b) && GuardInv(b) && !b.possible
    requires b.port.channel == 0 || b.port.channel == 3
    requires b.dma0.dreq[b.port.channel] && !b.dma0.mask[b.port.channel] && !b.dma0.Disabled()
    ensures !Same(BusTick(b, input), PolledTick(b, input))
  {
    var d := Pins0(b.dma0, b.devices);
    assert d.Asking(b.port.channel);
    hide BusTick, PolledTick, Same;
    SkipIsExact(b, input);
  }

  lemma LineIsLoud(t: Board, input: Input)
    requires BoardInv(t) && t.devices.ether.Line()
    ensures !Quiet(t)
    ensures PolledTick(t, input).dma1.Wf() && PolledTick(t, input).dma1.dreq[ETHERNET_CHANNEL]
  {
    hide PolledTick;
    TickKeepsInv(t, input);
    PolledPins(t, input);
  }

  lemma PausedTick(b: Board, input: Input)
    requires AtDemandPause(b) && !PolledTick(b, input).possible
    ensures var t := BusTick(b, input);
            BoardInv(t) && GuardInv(t) && !t.possible && t.devices.ether.Line() && t.transfers == b.transfers
  {
    hide PolledTick;
    TickKeepsInv(b, input);
    PolledFallsQuiet(b, input);
  }

  lemma PauseFalls(b: Board, input: Input)
    requires AtDemandPause(b)
    ensures !PolledTick(b, input).possible
  {
    hide ArbiterTick, HeldClock, Poll, Pending;
    PollKeepsInv(b);
    PollKeepsInv(Refresh(b));
    PausePoll(Refresh(b));
    ArbitrateKeepsInv(Poll(Refresh(b)));
    HeldKeepsInv(Arbitrate(Poll(Refresh(b))), Selected(Refresh(b)), input);
  }

  lemma PausePoll(r: Board)
    requires AtDemandPause(r)
    ensures !Poll(r).possible
  {
  }
}
