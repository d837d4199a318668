/**
 The proportional controller closed around a plant that moves one tick every `period` clocks in the
 commanded direction, the command being taken `lag` clocks before the move shows in the process variable.
 */
module PidLoop {
  import opened Fixed
  import opened Pid

  datatype Setup = Setup(gains: Gains, period: nat, lag: nat) {
    predicate Ok() {
      gains.kp > 0 && gains.kd == 0 && lag < period
    }
  }

  datatype Loop = Loop(pid: State, pv: int, phase: nat, command: Mode)

  function Moved(pv: int, command: Mode): int {
    match command
    case Forward => pv + 1
    case Reverse => pv - 1
    case Coast => pv
    case Brake => pv
  }

  function LoopStep(l: Loop, u: Setup): Loop
    requires u.Ok() && l.pid.Ok()
  {
    var command := if l.phase == u.period - 1 - u.lag then Direction(Response(l.pid, u.gains, l.pv)) else l.command;
    Loop(Step(l.pid, u.gains, l.pv),
         if l.phase == u.period - 1 then Moved(l.pv, command) else l.pv,
         if l.phase == u.period - 1 then 0 else l.phase + 1,
         command)
  }

  // ----- the band as an interval of errors -----

  function Error(u: Setup, pv: int): int {
    u.gains.setpoint - pv
  }

  /** The largest error that gives no response. */
  function Top(u: Setup): nat
    requires u.Ok()
  {
    0xFFFF / u.gains.kp
  }

  /** Ticks to the nearest error in the band. */
  function Distance(u: Setup, pv: int): nat
    requires u.Ok()
  {
    var e := Error(u, pv);
    if e < 0 then -e else if e > Top(u) then e - Top(u) else 0
  }

  function Toward(u: Setup, pv: int): Mode
    requires u.Ok()
  {
    var e := Error(u, pv);
    if e < 0 then Reverse else if e > Top(u) then Forward else Coast
  }

  lemma BandIsInterval(kp: int, e: int)
    requires kp > 0
    ensures kp * e < 0x1_0000 <==> e <= 0xFFFF / kp
    ensures kp * e < 0 <==> e < 0
  {
    var top := 0xFFFF / kp;
    assert top * kp <= 0xFFFF < (top + 1) * kp;
    assert e <= top ==> kp * e <= kp * top;
    assert e >= top + 1 ==> kp * e >= kp * (top + 1);
    assert e < 0 ==> kp * e <= -kp;
    assert e >= 0 ==> kp * e >= 0;
  }

  lemma ResponsePoints(s: State, u: Setup, pv: int)
    requires u.Ok() && NoOverflow(u.gains, pv)
    ensures Direction(Response(s, u.gains, pv)) == Toward(u, pv)
    ensures Response(s, u.gains, pv) == 0 <==> Distance(u, pv) == 0
  {
    ProportionalBand(s, u.gains, pv);
    BandIsInterval(u.gains.kp, Error(u, pv));
  }

  /** A tick toward the band removes one tick of distance and cannot overflow. */
  lemma MoveCloses(u: Setup, pv: int)
    requires u.Ok() && NoOverflow(u.gains, pv)
    ensures var next := Moved(pv, Toward(u, pv));
            && NoOverflow(u.gains, next)
            && Distance(u, next) == (if Distance(u, pv) == 0 then 0 else Distance(u, pv) - 1)
  {
    var e := Error(u, pv);
    var next := Moved(pv, Toward(u, pv));
    assert 0 <= Error(u, next) <= e || e <= Error(u, next) <= 0;
    SmallerError(u, pv, next);
    hide NoOverflow, Top;
  }

  lemma SmallerError(u: Setup, pv: int, next: int)
    requires u.Ok() && NoOverflow(u.gains, pv)
    requires 0 <= Error(u, next) <= Error(u, pv) || Error(u, pv) <= Error(u, next) <= 0
    ensures NoOverflow(u.gains, next)
  {
    Monotone(u.gains.kp, Error(u, next), Error(u, pv));
  }

  lemma Monotone(kp: int, x: int, y: int)
    requires kp > 0
    ensures 0 <= x <= y ==> 0 <= kp * x <= kp * y
    ensures y <= x <= 0 ==> kp * y <= kp * x <= 0
  {
  }

  // ----- runs -----

  ghost predicate Good(l: Loop, u: Setup) {
    && u.Ok() && l.pid.Ok() && l.phase < u.period && NoOverflow(u.gains, l.pv)
    && (l.phase > u.period - 1 - u.lag ==> l.command == Toward(u, l.pv))
  }

  /** Clocks until the process variable enters the band. */
  function Remaining(l: Loop, u: Setup): nat
    requires u.Ok() && l.phase < u.period
  {
    if Distance(u, l.pv) == 0 then 0 else Clocks(u.period, Distance(u, l.pv)) - l.phase
  }

  function Clocks(period: nat, moves: nat): (clocks: nat)
    ensures moves > 0 ==> clocks >= period
  {
    if moves == 0 then 0 else Clocks(period, moves - 1) + period
  }

  lemma StepCloses(l: Loop, u: Setup)
    requires Good(l, u)
    ensures var l' := LoopStep(l, u);
            && Good(l', u)
            && Remaining(l', u) == (if Remaining(l, u) == 0 then 0 else Remaining(l, u) - 1)
            && l'.pid.stability == (if Remaining(l, u) > 0 then 0
                                    else if l.pid.Stable() then l.pid.stability else l.pid.stability + 1)
  {
    ResponsePoints(l.pid, u, l.pv);
    MoveCloses(u, l.pv);
    hide Response, Samples, NoOverflow, Toward, Distance, Moved, Direction;
  }

  function After(l: Loop, u: Setup, n: nat): (l': Loop)
    requires u.Ok() && l.pid.Ok()
    ensures l'.pid.Ok()
  {
    if n == 0 then l else LoopStep(After(l, u, n - 1), u)
  }

  /**
   The loop enters the band after exactly `Remaining` clocks and never leaves it; the response is zero from
   then on and `stable_o` is high at the latest `MIN_PERIOD_FOR_STABILITY - 1` clocks later. If the loop
   starts outside the band, it is high from exactly then on.
   */
  lemma {:induction false} Converges(l: Loop, u: Setup, n: nat)
    requires Good(l, u)
    ensures var now, late := After(l, u, n), n - Remaining(l, u);
            && Good(now, u)
            && Remaining(now, u) == (if late >= 0 then 0 else -late)
            && (Distance(u, now.pv) == 0 <==> late >= 0)
            && (Response(now.pid, u.gains, now.pv) == 0 <==> late >= 0)
            && (late >= MIN_PERIOD_FOR_STABILITY - 1 ==> now.pid.Stable())
            && (Remaining(l, u) > 0 && n > 0 ==> (now.pid.Stable() <==> late >= MIN_PERIOD_FOR_STABILITY - 1))
  {
    StabilityAfter(l, u, n);
    var now := After(l, u, n);
    ResponsePoints(now.pid, u, now.pv);
    hide Response, NoOverflow, Toward, Direction, After;
  }

  lemma {:induction false} StabilityAfter(l: Loop, u: Setup, n: nat)
    requires Good(l, u)
    ensures var now, late := After(l, u, n), n - Remaining(l, u);
            && Good(now, u)
            && Remaining(now, u) == (if late >= 0 then 0 else -late)
            && (late >= 0 ==>
                  now.pid.stability
                  >= if late < MIN_PERIOD_FOR_STABILITY then late else MIN_PERIOD_FOR_STABILITY - 1)
            && (n > 0 && Remaining(l, u) > 0 ==> now.pid.stability <= if late < 0 then 0 else late)
  {
    hide LoopStep, Remaining, NoOverflow, Toward;
    if n > 0 {
      StabilityAfter(l, u, n - 1);
      StepCloses(After(l, u, n - 1), u);
    }
  }
}
