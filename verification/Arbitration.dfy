/**
 * Who holds the bus: the MC68030's own arbitration machine (section 7.7.4 of the
 * MC68030 User's Manual, with its two-clock synchronisers) and the board's
 * external priority arbiter around it.
 *
 * The pure part gives both machines as step functions on values. The classes are
 * the emulator's own objects, updated in place, and are proved against those
 * functions; the theorems are about the functions and about every run of them.
 */
module Arbitration {

  const REQUESTERS: nat := 8
  const PROCESSOR: int := -1
  const NO_LINES := [false, false, false, false, false, false, false, false]

  /** The five states of the manual's state diagram. */
  datatype Phase = S0 | S1 | S2 | S3 | S4

  /** How far into an indivisible read-modify-write the processor is. */
  datatype Rmc = RmcNone | RmcFirstRead | RmcLocked

  /** The processor's side of the handshake. The synchronisers are two-bit shift
      registers held as numbers below 4; `r` and `a` are what the machine sees. */
  datatype Cpu = Cpu(phase: Phase, br: bool, bgack: bool, brSync: nat, bgackSync: nat,
                     r: bool, a: bool, bg: bool, threeState: bool, rmc: Rmc, committed: bool)

  const RESET_CPU := Cpu(S0, false, false, 0, 0, false, false, false, false, RmcNone, false)

  predicate MayGrant(c: Cpu) {
    c.rmc != RmcLocked && !c.committed
  }

  function NextPhase(c: Cpu): Phase {
    match c.phase
    case S0 => if c.r && MayGrant(c) then S1 else if c.a then S4 else S0
    case S1 => S2
    case S2 => if c.a || !c.r then S3 else S2
    case S3 => S4
    case S4 => if !c.a then S0 else if c.r && MayGrant(c) then S1 else S4
  }

  predicate GrantOut(p: Phase) { p == S1 || p == S2 }
  predicate ThreeStateOut(p: Phase) { p != S0 }

  function Shift(register: nat, pin: bool): nat {
    (2 * register + if pin then 1 else 0) % 4
  }

  /** One processor clock, always worked out in full. */
  function CpuClock(c: Cpu): Cpu {
    var p := NextPhase(c);
    var b, k := Shift(c.brSync, c.br), Shift(c.bgackSync, c.bgack);
    c.(phase := p, bg := GrantOut(p), threeState := ThreeStateOut(p),
       brSync := b, bgackSync := k, r := b >= 2, a := k >= 2)
  }

  /** The grant pin: never asserted while RMC is. */
  predicate BusGrant(c: Cpu) {
    c.bg && c.rmc == RmcNone
  }

  /** Outputs follow the phase, and R and A follow their registers. */
  predicate Settled(c: Cpu) {
    && c.brSync < 4 && c.bgackSync < 4
    && c.r == (c.brSync >= 2) && c.a == (c.bgackSync >= 2)
    && c.bg == GrantOut(c.phase) && c.threeState == ThreeStateOut(c.phase)
  }

  predicate ClockIsNoOp(c: Cpu) {
    c.phase == S0 && !c.br && !c.bgack && c.brSync == 0 && c.bgackSync == 0
  }

  /** The shortcut's whole justification: in the idle state, with settled outputs,
      a full clock writes back what is already there. */
  lemma IdleClockChangesNothing(c: Cpu)
    requires Settled(c) && ClockIsNoOp(c)
    ensures CpuClock(c) == c
  {
  }

  lemma ClockSettles(c: Cpu)
    ensures Settled(CpuClock(c))
  {
  }

  /** The 68030's bus arbitration control unit, changed in place. */
  class Arb030 {
    var phase: Phase
    var br: bool
    var bgack: bool
    var brSync: nat
    var bgackSync: nat
    var r: bool
    var a: bool
    var bg: bool
    var threeState: bool
    var rmc: Rmc
    var committed: bool

    function View(): Cpu
      reads this
    {
      Cpu(phase, br, bgack, brSync, bgackSync, r, a, bg, threeState, rmc, committed)
    }

    constructor ()
      ensures View() == RESET_CPU
    {
      phase, br, bgack, brSync, bgackSync := S0, false, false, 0, 0;
      r, a, bg, threeState, rmc, committed := false, false, false, false, RmcNone, false;
    }

    /** The idle shortcut of the source: skipping the work is exactly the full
        clock, given only that the outputs are settled. */
    method Tick()
      requires Settled(View())
      modifies this
      ensures View() == CpuClock(old(View()))
      ensures Settled(View())
    {
      hide NextPhase, Shift, GrantOut, ThreeStateOut;
      ghost var c := View();
      ClockSettles(c);
      if phase == S0 && !br && !bgack && brSync == 0 && bgackSync == 0 {
        IdleClockChangesNothing(c);
        return;
      }
      phase := NextPhase(View());
      DriveOutputs();
      brSync := Shift(brSync, br);
      r := brSync >= 2;
      bgackSync := Shift(bgackSync, bgack);
      a := bgackSync >= 2;
    }

    /** G and T by state. */
    method DriveOutputs()
      modifies `bg, `threeState
      ensures bg == GrantOut(phase) && threeState == ThreeStateOut(phase)
    {
      match phase {
        case S0 => bg, threeState := false, false;
        case S1 => bg, threeState := true, true;
        case S2 => bg, threeState := true, true;
        case S3 => bg, threeState := false, true;
        case S4 => bg, threeState := false, true;
      }
    }
  }

  // ---------------------------------------------------------------------------
  // The board's arbiter
  // ---------------------------------------------------------------------------

  /** `request[i]` is line DRQi. */
  datatype Arbiter = Arbiter(cpu: Cpu, request: seq<bool>, selected: int, master: int)

  const RESET_ARBITER := Arbiter(RESET_CPU, NO_LINES, PROCESSOR, PROCESSOR)

  /** `m` is the lowest-numbered line up, or the processor when none is. */
  predicate IsHighest(request: seq<bool>, m: int) {
    if m == PROCESSOR then forall i :: 0 <= i < |request| ==> !request[i]
    else 0 <= m < |request| && request[m] && forall i :: 0 <= i < m ==> !request[i]
  }

  function Highest(request: seq<bool>): (m: int)
    ensures IsHighest(request, m)
  {
    HighestFrom(request, 0)
  }

  function HighestFrom(request: seq<bool>, from: nat): (m: int)
    requires from <= |request|
    requires forall i :: 0 <= i < from ==> !request[i]
    ensures IsHighest(request, m)
    decreases |request| - from
  {
    if from == |request| then PROCESSOR
    else if request[from] then from
    else HighestFrom(request, from + 1)
  }

  lemma HighestUnique(request: seq<bool>, m: int, n: int)
    requires IsHighest(request, m) && IsHighest(request, n)
    ensures m == n
  {
  }

  function SetLine(s: Arbiter, drq: nat, asserted: bool): Arbiter {
    if drq < |s.request| then s.(request := s.request[drq := asserted]) else s
  }

  /** Steps 1 and 3 of the section 7.7 sequence, before the processor's clock. */
  function Handshake(s: Arbiter): Arbiter
    requires -1 <= s.master < |s.request|
  {
    var asking := Highest(s.request);
    var cpu := s.cpu.(br := asking != PROCESSOR);
    if s.master == PROCESSOR then
      if BusGrant(cpu) && asking != PROCESSOR then
        s.(selected := asking, master := asking, cpu := cpu.(bgack := true))
      else s.(cpu := cpu)
    else if !s.request[s.master] then
      s.(selected := PROCESSOR, master := PROCESSOR, cpu := cpu.(bgack := false))
    else s.(cpu := cpu)
  }

  function ArbiterTick(s: Arbiter): Arbiter
    requires -1 <= s.master < |s.request|
  {
    var h := Handshake(s);
    h.(cpu := CpuClock(h.cpu))
  }

  predicate ArbiterMayRun(s: Arbiter) {
    !s.cpu.threeState && s.master == PROCESSOR
  }

  /** What the arbiter keeps on its own, whatever the processor does. */
  predicate Shape(s: Arbiter) {
    && |s.request| == REQUESTERS
    && -1 <= s.master < REQUESTERS
    && s.selected == s.master
    && (s.cpu.bgack <==> s.master != PROCESSOR)
  }

  /** What every event keeps with the MC68030 behind it. The last conjunct is the point:
      while a device is master the processor has left state 0, and the acknowledge is
      either through its synchroniser or will be before state 4 can look at it. */
  predicate ArbiterInv(s: Arbiter) {
    && Shape(s)
    && Settled(s.cpu)
    && (s.master != PROCESSOR ==>
          && s.cpu.phase != S0
          && (s.cpu.bgackSync == 3 || (s.cpu.bgackSync % 2 == 1 && (s.cpu.phase == S2 || s.cpu.phase == S3))))
  }

  /** The master after a clock, from what the arbiter can see. */
  function NextMaster(s: Arbiter): int
    requires -1 <= s.master < |s.request|
  {
    if s.master == PROCESSOR then if BusGrant(s.cpu) then Highest(s.request) else PROCESSOR
    else if s.request[s.master] then s.master
    else PROCESSOR
  }

  /** One clock with any processor at all behind the pins: acquisition only on a grant
      and only by the highest requester, no pre-emption while the line is up, release
      exactly when it is down, and the acknowledge exactly while a device is master. */
  lemma AnyGrantTick(s: Arbiter)
    requires Shape(s)
    ensures var t := ArbiterTick(s);
            && Shape(t) && t.request == s.request && t.master == NextMaster(s)
  {
    hide NextPhase, Shift;
  }

  /** The same clock with the MC68030 behind it keeps the handshake besides. */
  lemma ArbiterTickSafety(s: Arbiter)
    requires ArbiterInv(s)
    ensures var t := ArbiterTick(s);
            && ArbiterInv(t) && t.request == s.request && t.master == NextMaster(s)
            && t.cpu.rmc == s.cpu.rmc && t.cpu.committed == s.cpu.committed
  {
  }

  /** The point of the handshake: a device drives the bus only while the
      processor's buffers are off it, and the acknowledge is exactly mastership. */
  lemma DeviceAndProcessorExclude(s: Arbiter)
    requires ArbiterInv(s)
    ensures s.master != PROCESSOR ==> s.cpu.threeState && !ArbiterMayRun(s)
    ensures s.cpu.bgack <==> s.master != PROCESSOR
  {
  }

  /** The processor may run in state 0 and in no other, and state 0 is where the acknowledge
      and the grant are both down. */
  lemma MayRunIff(s: Arbiter)
    requires ArbiterInv(s)
    ensures ArbiterMayRun(s) <==> s.cpu.phase == S0
    ensures ArbiterMayRun(s) ==> !BusGrant(s.cpu) && !s.cpu.bgack
  {
  }

  // ----- every run -----------------------------------------------------------

  /** What can happen to the arbiter between two observations. `Processor` is the
      processor's side becoming anything whatever, but for the two pins that the
      arbiter drives. */
  datatype Event =
    | Drive(drq: nat, asserted: bool)
    | Lock(rmc: Rmc)
    | Commit(committed: bool)
    | Processor(cpu: Cpu)
    | Clock

  function Step(s: Arbiter, e: Event): (t: Arbiter)
    requires Shape(s)
    ensures Shape(t)
  {
    match e
    case Drive(drq, asserted) => SetLine(s, drq, asserted)
    case Lock(rmc) => s.(cpu := s.cpu.(rmc := rmc))
    case Commit(c) => s.(cpu := s.cpu.(committed := c))
    case Processor(cpu) => s.(cpu := cpu.(br := s.cpu.br, bgack := s.cpu.bgack))
    case Clock =>
      AnyGrantTick(s);
      ArbiterTick(s)
  }

  /** The arbiter after the first `n` events from reset. */
  function Reached(events: seq<Event>, n: nat): (s: Arbiter)
    requires n <= |events|
    ensures Shape(s)
  {
    if n == 0 then RESET_ARBITER else Step(Reached(events, n - 1), events[n - 1])
  }

  /** Runs with the MC68030's own machine behind the pins throughout. */
  predicate Genuine(events: seq<Event>) {
    forall i :: 0 <= i < |events| ==> !events[i].Processor?
  }

  lemma StepKeepsInv(s: Arbiter, e: Event)
    requires ArbiterInv(s) && !e.Processor?
    ensures ArbiterInv(Step(s, e))
  {
    hide ArbiterTick;
    if e.Clock? { ArbiterTickSafety(s); }
  }

  /** From reset, under any lines, any locking and any deferral by the processor, a
      device and the processor never drive together. */
  lemma {:induction false} RunIsExclusive(events: seq<Event>, n: nat)
    requires Genuine(events) && n <= |events|
    ensures ArbiterInv(Reached(events, n))
    ensures Reached(events, n).master != PROCESSOR ==>
            Reached(events, n).cpu.threeState && !ArbiterMayRun(Reached(events, n))
  {
    hide Step;
    if n > 0 {
      RunIsExclusive(events, n - 1);
      StepKeepsInv(Reached(events, n - 1), events[n - 1]);
    }
  }

  /** The exclusion is the MC68030's doing and not the arbiter's: behind a processor that
      grants the bus and goes on driving it, a device is master all the same. */
  lemma ExclusionNeedsTheProcessor() returns (events: seq<Event>)
    ensures Reached(events, |events|).master != PROCESSOR && !Reached(events, |events|).cpu.threeState
  {
    events := [Drive(0, true), Processor(RESET_CPU.(bg := true)), Clock, Processor(RESET_CPU)];
    var s1 := Step(RESET_ARBITER, events[0]);
    var s2 := Step(s1, events[1]);
    assert s2.request[0] && BusGrant(s2.cpu);
    assert Reached(events, 1) == s1 && Reached(events, 2) == s2;
    AnyGrantTick(s2);
    assert Reached(events, 3) == Step(s2, Clock) && Reached(events, 3).master == 0;
    assert Reached(events, 4) == Step(Reached(events, 3), events[3]);
  }

  /** Whatever the processor does, every handover between two devices passes through
      it. */
  lemma {:induction false} HandoverThroughProcessor(events: seq<Event>, i: nat, j: nat) returns (k: nat)
    requires i < j <= |events|
    requires Reached(events, i).master != PROCESSOR && Reached(events, j).master != PROCESSOR
    requires Reached(events, i).master != Reached(events, j).master
    ensures i < k < j && Reached(events, k).master == PROCESSOR
    decreases j - i
  {
    hide ArbiterTick;
    if events[i].Clock? { AnyGrantTick(Reached(events, i)); }
    assert Reached(events, i + 1) == Step(Reached(events, i), events[i]);
    if Reached(events, i + 1).master == PROCESSOR {
      k := i + 1;
    } else {
      k := HandoverThroughProcessor(events, i + 1, j);
    }
  }

  predicate LineUp(s: Arbiter, drq: int) {
    0 <= drq < |s.request| && s.request[drq]
  }

  /** Whatever the processor does, a device that is master and never drops its own line
      keeps the bus. */
  lemma {:induction false} NeverPreempted(events: seq<Event>, i: nat, j: nat)
    requires i <= j <= |events| && Reached(events, i).master != PROCESSOR
    requires forall k :: i <= k < j ==> LineUp(Reached(events, k), Reached(events, i).master)
    ensures Reached(events, j).master == Reached(events, i).master
    decreases j
  {
    hide ArbiterTick;
    if i < j {
      NeverPreempted(events, i, j - 1);
      assert LineUp(Reached(events, j - 1), Reached(events, i).master);
      if events[j - 1].Clock? { AnyGrantTick(Reached(events, j - 1)); }
    }
  }

  // ----- the processor's own deferrals -------------------------------------------

  /** Past the first read of an indivisible sequence, or a cycle already decided on. */
  predicate Deferred(c: Cpu) {
    c.rmc == RmcLocked || c.committed
  }

  /** The edges out of the two states a request can be acted on in: taken up in state 0
      exactly when one has come through and nothing defers it, and given a second grant
      in state 4 on the same terms. */
  lemma RequestActedOnIff(s: Arbiter)
    requires ArbiterInv(s)
    ensures var t := ArbiterTick(s);
            && (s.cpu.phase == S0 && !s.cpu.a ==> t.cpu.phase == if s.cpu.r && !Deferred(s.cpu) then S1 else S0)
            && (s.cpu.phase == S4 && s.cpu.a ==> t.cpu.phase == if s.cpu.r && !Deferred(s.cpu) then S1 else S4)
  {
  }

  /** An indivisible sequence, from its first read on, is never granted across. */
  lemma NoGrantUnderRmc(s: Arbiter)
    requires Shape(s) && s.master == PROCESSOR && s.cpu.rmc != RmcNone
    ensures ArbiterTick(s).master == PROCESSOR
  {
    hide NextPhase, Shift;
  }

  /** The acknowledge sampled on the last clock was mastership at that clock. */
  predicate AckSampled(s: Arbiter) {
    s.cpu.bgackSync % 2 == 1 <==> s.master != PROCESSOR
  }

  lemma {:induction false} RunSamplesAck(events: seq<Event>, n: nat)
    requires Genuine(events) && n <= |events|
    ensures AckSampled(Reached(events, n))
  {
    if n > 0 {
      RunSamplesAck(events, n - 1);
      if events[n - 1].Clock? { TickSamplesAck(Reached(events, n - 1)); }
      hide ArbiterTick;
    }
  }

  lemma TickSamplesAck(s: Arbiter)
    requires Shape(s)
    ensures AckSampled(ArbiterTick(s))
  {
    hide NextPhase;
  }

  /** The processor is on the bus and no acknowledge stands. */
  predicate Running(s: Arbiter) {
    s.master == PROCESSOR && s.cpu.phase == S0 && !s.cpu.a
  }

  /** One event: a processor that is on the bus stays on it, if a clock finds it deferring. */
  lemma DeferredStep(s: Arbiter, e: Event)
    requires ArbiterInv(s) && AckSampled(s) && Running(s) && !e.Processor?
    requires e.Clock? ==> Deferred(s.cpu)
    ensures Running(Step(s, e))
  {
  }

  lemma RunningMayRun(s: Arbiter)
    requires ArbiterInv(s) && Running(s)
    ensures ArbiterMayRun(s)
  {
  }

  /** Wherever event `k` of the run is a clock, the processor is deferring. */
  predicate DeferredAt(events: seq<Event>, k: nat) {
    k < |events| && (events[k].Clock? ==> Deferred(Reached(events, k).cpu))
  }

  /** Over every run, whatever the devices' lines do: a processor that is on the bus
      stays on it for as long as every clock finds it locked or committed. */
  lemma {:induction false} DeferredKeepsBus(events: seq<Event>, i: nat, j: nat)
    requires Genuine(events) && i <= j <= |events| && Running(Reached(events, i))
    requires forall k :: i <= k < j ==> DeferredAt(events, k)
    ensures Running(Reached(events, j)) && ArbiterMayRun(Reached(events, j))
    decreases j
  {
    hide Step, Deferred, ArbiterInv, Running, AckSampled;
    RunIsExclusive(events, j);
    if i < j {
      DeferredKeepsBus(events, i, j - 1);
      RunIsExclusive(events, j - 1);
      RunSamplesAck(events, j - 1);
      assert DeferredAt(events, j - 1);
      DeferredStep(Reached(events, j - 1), events[j - 1]);
    }
    RunningMayRun(Reached(events, j));
  }

  /** And one in the middle of an indivisible sequence keeps its mastership, whatever
      state the handshake is in and whatever stands behind the pins. */
  lemma {:induction false} RmcKeepsMastership(events: seq<Event>, i: nat, j: nat)
    requires i <= j <= |events| && Reached(events, i).master == PROCESSOR
    requires forall k :: i <= k < j ==> Reached(events, k).cpu.rmc != RmcNone
    ensures Reached(events, j).master == PROCESSOR
    decreases j
  {
    hide ArbiterTick;
    if i < j {
      RmcKeepsMastership(events, i, j - 1);
      if events[j - 1].Clock? { NoGrantUnderRmc(Reached(events, j - 1)); }
    }
  }

  // ----- bounded waiting -----------------------------------------------------

  predicate AnyLine(request: seq<bool>) {
    exists i :: 0 <= i < |request| && request[i]
  }

  /** Clocks until a device is master, exactly: the synchronisers first, then the
      phases that have no grant to take up. */
  function GrantWait(c: Cpu): (n: nat)
    ensures 1 <= n <= 5
  {
    var late := if c.bgackSync % 2 == 1 then 5 else 4;
    match c.phase
    case S1 => 1
    case S2 => 1
    case S0 => Requested(c, late)
    case S3 => if c.bgackSync % 2 == 0 then 4 else if c.brSync % 2 == 1 then 3 else 5
    case S4 => if c.bgackSync >= 2 then Requested(c, late) else if c.brSync % 2 == 1 then 3 else late
  }

  function Requested(c: Cpu, late: nat): nat
  {
    if c.brSync >= 2 then 2
    else if c.brSync == 1 then if c.bgackSync == 2 then 4 else 3
    else late
  }

  lemma GrantProgress(s: Arbiter)
    requires ArbiterInv(s) && s.master == PROCESSOR && AnyLine(s.request)
    requires s.cpu.rmc == RmcNone && !s.cpu.committed
    ensures var t := ArbiterTick(s);
            if GrantWait(s.cpu) == 1 then t.master == Highest(s.request) != PROCESSOR
            else t.master == PROCESSOR && GrantWait(t.cpu) == GrantWait(s.cpu) - 1
  {
  }

  /** `n` clocks with the lines of `lines` standing at each. */
  function Clocks(s: Arbiter, lines: seq<seq<bool>>): (t: Arbiter)
    requires ArbiterInv(s)
    requires forall k :: 0 <= k < |lines| ==> |lines[k]| == REQUESTERS
    ensures ArbiterInv(t)
    decreases |lines|
  {
    if lines == [] then s
    else
      var u := s.(request := lines[0]);
      ArbiterTickSafety(u);
      Clocks(ArbiterTick(u), lines[1..])
  }

  /** No starvation, and the latency to the clock: with the bus unlocked and some
      line up at every clock, the processor keeps the bus for exactly
      `GrantWait - 1` more clocks, at most four, and the next one hands it to
      whichever line is then the highest. */
  lemma {:induction false} GrantedOnTheClock(s: Arbiter, lines: seq<seq<bool>>)
    requires ArbiterInv(s) && s.master == PROCESSOR && s.cpu.rmc == RmcNone && !s.cpu.committed
    requires forall k :: 0 <= k < |lines| ==> |lines[k]| == REQUESTERS && AnyLine(lines[k])
    requires |lines| <= GrantWait(s.cpu)
    ensures GrantWait(s.cpu) <= 5
    ensures Clocks(s, lines).master ==
            if |lines| < GrantWait(s.cpu) then PROCESSOR else Highest(lines[|lines| - 1])
    ensures |lines| == GrantWait(s.cpu) ==> Clocks(s, lines).master != PROCESSOR
    decreases |lines|
  {
    if lines != [] {
      var u := s.(request := lines[0]);
      GrantProgress(u);
      ArbiterTickSafety(u);
      var t := ArbiterTick(u);
      if GrantWait(s.cpu) == 1 {
        assert lines[1..] == [];
      } else {
        GrantedOnTheClock(t, lines[1..]);
      }
    }
  }

  function ReturnWait(c: Cpu): nat {
    var settle := if c.brSync == 0 && c.bgackSync == 0 then 0
                  else if c.brSync % 2 == 0 && c.bgackSync % 2 == 0 then 1 else 2;
    var phases := match c.phase case S0 => 0 case S1 => 4 case S2 => 3 case S3 => 2 case S4 => 1;
    4 * settle + phases
  }

  /** And the bus comes back: with no line up and no device master, the processor
      is running again within twelve clocks, and a clock that leaves it waiting
      has made progress. */
  lemma {:induction false} ProcessorGetsBusBack(s: Arbiter, lines: seq<seq<bool>>) returns (n: nat)
    requires ArbiterInv(s) && s.master == PROCESSOR
    requires forall k :: 0 <= k < |lines| ==> |lines[k]| == REQUESTERS && !AnyLine(lines[k])
    requires |lines| >= ReturnWait(s.cpu)
    ensures n <= ReturnWait(s.cpu) <= 12 && n <= |lines|
    ensures ArbiterMayRun(Clocks(s, lines[..n]))
    decreases |lines|
  {
    if ArbiterMayRun(s) {
      n := 0;
    } else {
      var u := s.(request := lines[0]);
      ArbiterTickSafety(u);
      var m := ProcessorGetsBusBack(ArbiterTick(u), lines[1..]);
      n := m + 1;
      assert lines[..n][1..] == lines[1..][..m];
    }
  }

  // ----- the object ------------------------------------------------------------

  /** The board's arbiter, changed in place around the processor's machine. */
  class ArbiterPort {
    const cpu: Arb030
    var request: seq<bool>
    var selected: int
    var master: int

    function View(): Arbiter
      reads this, cpu
    {
      Arbiter(cpu.View(), request, selected, master)
    }

    ghost predicate Valid()
      reads this, cpu
    {
      ArbiterInv(View())
    }

    constructor ()
      ensures View() == RESET_ARBITER && Valid() && fresh(cpu)
    {
      cpu := new Arb030();
      request, selected, master := NO_LINES, PROCESSOR, PROCESSOR;
    }

    method Request(drq: nat, asserted: bool)
      requires Valid()
      modifies this
      ensures Valid() && View() == SetLine(old(View()), drq, asserted)
    {
      if drq >= REQUESTERS {
        return;
      }
      request := request[drq := asserted];
    }

    /** The priority encoder's scan. */
    method HighestRequester() returns (m: int)
      requires Valid()
      ensures IsHighest(request, m)
      ensures m == Highest(request)
    {
      var i := 0;
      while i < REQUESTERS
        invariant 0 <= i <= REQUESTERS
        invariant forall k :: 0 <= k < i ==> !request[k]
      {
        if request[i] {
          HighestUnique(request, i, Highest(request));
          return i;
        }
        i := i + 1;
      }
      HighestUnique(request, PROCESSOR, Highest(request));
      return PROCESSOR;
    }

    method Tick()
      requires Valid()
      modifies this, cpu
      ensures Valid() && View() == ArbiterTick(old(View()))
    {
      hide Handshake, CpuClock;
      ArbiterTickSafety(View());
      Exchange();
      cpu.Tick();
    }

    /** The two steps of the handshake that come before the processor's clock. */
    method Exchange()
      requires Valid()
      modifies this, cpu
      ensures View() == Handshake(old(View())) && Settled(cpu.View())
    {
      var asking := HighestRequester();
      cpu.br := asking != PROCESSOR;
      if master == PROCESSOR {
        if cpu.bg && cpu.rmc == RmcNone && asking != PROCESSOR {
          selected := asking;
          master := asking;
          cpu.bgack := true;
        }
      } else if !request[master] {
        master := PROCESSOR;
        selected := PROCESSOR;
        cpu.bgack := false;
      }
    }
  }
}
