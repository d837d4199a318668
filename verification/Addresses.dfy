/** The memory map: the bus's masked comparison against the simulation's address ranges. */
module Addresses {
  import opened Obi
  import opened BusSpec
  import opened Masks

  datatype Peripheral = Invalid | Ram | Uart | Gpio | Pwm | Timer | Pid | Quad

  function ClassifyAddress(addr: bv32): Peripheral {
    if Covers(0x0010_0000, 0x2_0000, addr) then Ram
    else if Covers(0x8000_0000, 0x1000, addr) then Uart
    else if Covers(0x8000_1000, 0x1000, addr) then Gpio
    else if Covers(0x8000_2000, 0x1000, addr) then Pwm
    else if Covers(0x8000_3000, 0x1000, addr) then Timer
    else if Covers(0x8000_4000, 0x400, addr) then Pid
    else if Covers(0x8000_4400, 0x400, addr) then Quad
    else Invalid
  }

  /** The bus's device numbers. */
  const DEVICES: seq<Peripheral> := [Ram, Uart, Gpio, Pwm, Pid, Quad, Timer]

  const BASES: seq<bv32> :=
    [0x0010_0000, 0x8000_0000, 0x8000_1000, 0x8000_2000, 0x8000_4000, 0x8000_4400, 0x8000_3000]

  const MASKS: seq<bv32> :=
    [0xFFFE_0000, 0xFFFF_F000, 0xFFFF_F000, 0xFFFF_F000, 0xFFFF_FC00, 0xFFFF_FC00, 0xFFFF_F000]

  function MapConfig(capacity: nat): (cfg: Config)
    requires capacity > 0
    ensures cfg.Valid() && cfg.Devices() == 7
  {
    Config(1, BASES, MASKS, capacity)
  }

  lemma MatchIsMasked(addr: bv32, capacity: nat, d: nat)
    requires capacity > 0 && d < 7
    ensures Matches(MapConfig(capacity), d, addr) <==> Masked(addr, MASKS[d], BASES[d])
  {
    hide Masked;
  }

  /** The ranges are disjoint, so the order in which the simulation tests them does not matter. */
  lemma ClassIsRange(addr: bv32)
    ensures ClassifyAddress(addr) == Ram <==> Covers(0x0010_0000, 0x2_0000, addr)
    ensures ClassifyAddress(addr) == Uart <==> Covers(0x8000_0000, 0x1000, addr)
    ensures ClassifyAddress(addr) == Gpio <==> Covers(0x8000_1000, 0x1000, addr)
    ensures ClassifyAddress(addr) == Pwm <==> Covers(0x8000_2000, 0x1000, addr)
    ensures ClassifyAddress(addr) == Timer <==> Covers(0x8000_3000, 0x1000, addr)
    ensures ClassifyAddress(addr) == Pid <==> Covers(0x8000_4000, 0x400, addr)
    ensures ClassifyAddress(addr) == Quad <==> Covers(0x8000_4400, 0x400, addr)
  {
    SystemApart(addr);
    hide Covers;
  }

  /** The bus compares against one device exactly when the simulation names that device. */
  lemma MatchIsClass(addr: bv32, capacity: nat, d: nat)
    requires capacity > 0 && d < 7
    ensures Matches(MapConfig(capacity), d, addr) <==> ClassifyAddress(addr) == DEVICES[d]
  {
    hide Matches, Covers, Masked, ClassifyAddress;
    MatchIsMasked(addr, capacity, d);
    ClassIsRange(addr);
    match d {
      case 0 => RamRange(addr);
      case 1 => UartRange(addr);
      case 2 => GpioRange(addr);
      case 3 => PwmRange(addr);
      case 4 => PidRange(addr);
      case 5 => QuadRange(addr);
      case 6 => TimerRange(addr);
    }
  }

  /** A matching device sees the distance from its base. */
  lemma OffsetFromBase(addr: bv32, capacity: nat, d: nat)
    requires capacity > 0 && d < 7 && Matches(MapConfig(capacity), d, addr)
    ensures BASES[d] + Offset(addr, MapConfig(capacity).mask[d]) == addr
  {
    SplitSum(addr, !MASKS[d]);
  }

  /**
   For every address: at most one device matches, it is the one the simulation names, and none matches
   exactly when the simulation calls the address invalid.
   */
  lemma DecodeAgrees(addr: bv32, capacity: nat)
    requires capacity > 0
    ensures forall i: nat, j: nat ::
              (i < 7 && j < 7 && Matches(MapConfig(capacity), i, addr) && Matches(MapConfig(capacity), j, addr)
               ==> i == j)
    ensures var d := DecodeBelow(MapConfig(capacity), addr, 7);
            ClassifyAddress(addr) == match d case Some(k) => DEVICES[k] case None => Invalid
  {
    hide ClassifyAddress, Matches;
    forall d: nat | d < 7
      ensures Matches(MapConfig(capacity), d, addr) <==> ClassifyAddress(addr) == DEVICES[d]
    {
      MatchIsClass(addr, capacity, d);
    }
    EveryPeripheral(ClassifyAddress(addr));
  }

  lemma EveryPeripheral(p: Peripheral)
    ensures p == Invalid || exists d: nat :: d < 7 && DEVICES[d] == p
  {
    match p {
      case Invalid =>
      case Ram => assert DEVICES[0] == p;
      case Uart => assert DEVICES[1] == p;
      case Gpio => assert DEVICES[2] == p;
      case Pwm => assert DEVICES[3] == p;
      case Pid => assert DEVICES[4] == p;
      case Quad => assert DEVICES[5] == p;
      case Timer => assert DEVICES[6] == p;
    }
  }
}
