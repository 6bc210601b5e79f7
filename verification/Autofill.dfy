/** lsst/autofilld/autofill_fill_logic.cpp: a ticking controller, the threads of the fills it has
    started, and a user who sets two server flags, as steps that may interleave.

    A tick is two steps, up to and after the place where it forgets a finished fill, and the
    fill thread is one step per action, so that the places where the code relies on the tick
    interval show. Server calls succeed. */
module Autofill {

  datatype Config = Config(limitPressure: real, emptyTemp: real, dryrun: bool)

  datatype Env = Env(pressure: real, tankTemp: real)

  /** What the logger records, and the readings each tick saw. */
  datatype Event =
    | FillBegin
    | FillComplete
    | TankEmpty
    | DewarEmpty
    | DewarFilled
    | Saw(pressure: real, tankTemp: real, enabled: bool)

  /** How far the fill thread has come. */
  datatype Phase =
    | Idle         // no thread, or the last one has set fill_just_done
    | Launched     // std::async called, fill_in_progress not yet set
    | Started      // fill_in_progress set
    | Pouring      // relay energised (unless a dry run)
    | Poured       // relay released
    | Logged       // fill_complete logged
    | Deactivated  // fillactive flag cleared
    | Finished     // fill_in_progress cleared, fill_just_done not yet set

  /** A flag on the server: the user or the controller may not have created it yet. */
  datatype Flag = Unset | Is(value: bool)

  /** The server flags under autofill/ that the controller uses. */
  datatype Flags = Flags(
    fillActive: Flag,
    dewarFull: Flag,
    dewarFilled: Flag,
    enable: Flag,
    tankFull: Flag,
    pumpdown: Flag)

  datatype State = State(
    flags: Flags,
    relay: bool,
    loggedTankEmpty: bool,
    dewarEmpty: bool,
    fillInProgress: bool,
    fillJustDone: bool,
    phase: Phase,              // the thread launched last
    older: Phase,              // the one it has replaced, which the tick waits for
    ticking: bool,             // between the two halves of a tick
    history: seq<Event>)

  const INITIAL := State(Flags(Unset, Unset, Unset, Unset, Unset, Unset),
                         false, false, false, false, false, Idle, Idle, false, [])

  datatype Step =
    | TickBody(env: Env)
    | TickEnd
    | Thread
    | OlderThread
    | UserFilledDewar(value: bool)  // sets the flag dewar_filled
    | UserEnables(value: bool)      // sets the flag autofill_enable

  predicate Enabled(s: State, step: Step) {
    match step
    case TickBody(_) => !s.ticking
    case TickEnd => s.ticking && s.older == Idle
    case Thread => s.phase != Idle
    case OlderThread => s.older != Idle
    case UserFilledDewar(_) | UserEnables(_) => true
  }

  // ---- a tick ----

  /** A flag the server does not have is created with value false. */
  function Created(f: Flag): Flag {
    if f.Unset? then Is(false) else f
  }

  function Log(s: State, e: Event): State {
    s.(history := s.history + [e])
  }

  function CheckDewar(s: State): State {
    if s.flags.dewarFilled != Is(true) then s.(flags := s.flags.(dewarFilled := Created(s.flags.dewarFilled)))
    else
      Log(s.(flags := s.flags.(dewarFull := Is(true), dewarFilled := Is(false)), dewarEmpty := false), DewarFilled)
  }

  /** The branch for a warm tank, and whether a fill is needed. */
  function CheckWarmTank(s: State): (State, bool) {
    var s1 := if !s.fillInProgress && !s.loggedTankEmpty then Log(s.(loggedTankEmpty := true), TankEmpty) else s;
    var s2 := s1.(flags := s1.flags.(tankFull := Is(false)));
    if !s2.fillJustDone then (s2, !s2.fillInProgress)
    else
      var s3 := s2.(loggedTankEmpty := false);
      var s4 := if s3.dewarEmpty then s3 else Log(s3.(flags := s3.flags.(dewarFull := Is(false))), DewarEmpty);
      (s4.(dewarEmpty := true), false)
  }

  /** fill_tank and the assignment of its future. The future that is replaced blocks the tick
      until its own thread, if that is still alive, has ended. */
  function Launch(s: State): State {
    Log(s.(flags := s.flags.(fillActive := Is(true)), phase := Launched, older := s.phase), FillBegin)
  }

  predicate PumpedDown(c: Config, env: Env) {
    env.pressure < c.limitPressure
  }

  predicate TankIsFull(c: Config, env: Env) {
    !(env.tankTemp > c.emptyTemp)
  }

  function Observe(c: Config, s: State, env: Env): State {
    var seen := Saw(env.pressure, env.tankTemp, s.flags.enable == Is(true));
    Log(s.(flags := s.flags.(pumpdown := Is(PumpedDown(c, env)))), seen)
  }

  function CheckTank(s: State, full: bool): (State, bool) {
    if full then (s.(flags := s.flags.(tankFull := Is(true))), false) else CheckWarmTank(s)
  }

  function StartFill(s: State, fillNeeded: bool, pumpdown: bool): State {
    if fillNeeded && pumpdown && !s.fillJustDone && !s.dewarEmpty then
      if s.flags.enable == Is(true) then Launch(s) else s.(flags := s.flags.(enable := Created(s.flags.enable)))
    else s
  }

  function TickBodyOf(c: Config, s: State, env: Env): State {
    var (s', fillNeeded) := CheckTank(CheckDewar(Observe(c, s, env)), TankIsFull(c, env));
    StartFill(s', fillNeeded, PumpedDown(c, env)).(ticking := true)
  }

  // ---- the fill threads ----

  function PhaseAfter(p: Phase): Phase {
    match p
    case Idle => Idle
    case Launched => Started
    case Started => Pouring
    case Pouring => Poured
    case Poured => Logged
    case Logged => Deactivated
    case Deactivated => Finished
    case Finished => Idle
  }

  /** What a thread in phase p does next to what the threads share. */
  function ThreadAction(c: Config, s: State, p: Phase): State {
    match p
    case Idle => s
    case Launched => s.(fillInProgress := true)
    case Started => s.(relay := if c.dryrun then s.relay else true)
    case Pouring => s.(relay := if c.dryrun then s.relay else false)
    case Poured => Log(s, FillComplete)
    case Logged => s.(flags := s.flags.(fillActive := Is(false)))
    case Deactivated => s.(fillInProgress := false)
    case Finished => s.(fillJustDone := true)
  }

  function ThreadStep(c: Config, s: State): State {
    ThreadAction(c, s, s.phase).(phase := PhaseAfter(s.phase))
  }

  function OlderThreadStep(c: Config, s: State): State {
    ThreadAction(c, s, s.older).(older := PhaseAfter(s.older))
  }

  function Next(c: Config, s: State, step: Step): State {
    match step
    case TickBody(env) => TickBodyOf(c, s, env)
    case TickEnd => s.(fillJustDone := false, ticking := false)
    case Thread => ThreadStep(c, s)
    case OlderThread => OlderThreadStep(c, s)
    case UserFilledDewar(value) => s.(flags := s.flags.(dewarFilled := Is(value)))
    case UserEnables(value) => s.(flags := s.flags.(enable := Is(value)))
  }

  // ---- runs ----

  function After(c: Config, steps: seq<Step>): State {
    if steps == [] then INITIAL else Next(c, After(c, steps[..|steps| - 1]), steps[|steps| - 1])
  }

  predicate Legal(c: Config, steps: seq<Step>) {
    steps == []
    || (Legal(c, steps[..|steps| - 1]) && Enabled(After(c, steps[..|steps| - 1]), steps[|steps| - 1]))
  }

  /** What the tick interval is relied on for: no tick begins before a launched thread has set
      fill_in_progress, none begins between the thread's last two assignments, and the last of
      them does not fall into a tick. */
  predicate TimelyStep(s: State, step: Step) {
    match step
    case TickBody(_) => s.phase != Launched && s.phase != Finished
    case Thread => !(s.phase == Finished && s.ticking)
    case TickEnd | OlderThread | UserFilledDewar(_) | UserEnables(_) => true
  }

  /** How many steps of a run are not timely. */
  function Untimely(c: Config, steps: seq<Step>): nat {
    if steps == [] then 0
    else
      var before, last := steps[..|steps| - 1], steps[|steps| - 1];
      Untimely(c, before) + if TimelyStep(After(c, before), last) then 0 else 1
  }

  // ---- the controller as an object ----

  class AutofillLogic {
    const config: Config
    var flags: Flags
    var relay: bool
    var loggedTankEmpty: bool
    var dewarEmpty: bool
    var fillInProgress: bool
    var fillJustDone: bool
    var phase: Phase
    var older: Phase
    var ticking: bool
    var history: seq<Event>

    constructor (c: Config)
      ensures config == c && Now() == INITIAL
    {
      config := c;
      flags := INITIAL.flags;
      relay, loggedTankEmpty, dewarEmpty := false, false, false;
      fillInProgress, fillJustDone, phase, older, ticking, history := false, false, Idle, Idle, false, [];
    }

    function Now(): State
      reads this
    {
      State(flags, relay, loggedTankEmpty, dewarEmpty, fillInProgress, fillJustDone, phase, older, ticking, history)
    }

    method WasDewarFilled() returns (filled: bool)
      modifies this
      ensures Now() == old(Now()).(flags := old(flags).(dewarFilled := Created(old(flags.dewarFilled))))
      ensures filled == (old(flags.dewarFilled) == Is(true))
    {
      if flags.dewarFilled.Unset? {
        flags := flags.(dewarFilled := Is(false));
      }
      filled := flags.dewarFilled.value;
    }

    method IsAutofillEnabled() returns (enabled: bool)
      modifies this
      ensures Now() == old(Now()).(flags := old(flags).(enable := Created(old(flags.enable))))
      ensures enabled == (old(flags.enable) == Is(true))
    {
      if flags.enable.Unset? {
        flags := flags.(enable := Is(false));
      }
      enabled := flags.enable.value;
    }

    method HandleDewarFilled()
      modifies this
      ensures Now() == CheckDewar(old(Now()))
    {
      var filled := WasDewarFilled();
      if filled {
        flags := flags.(dewarFull := Is(true));
        dewarEmpty := false;
        flags := flags.(dewarFilled := Is(false));
        history := history + [DewarFilled];
      }
    }

    method HandleWarmTank() returns (fillNeeded: bool)
      modifies this
      ensures (Now(), fillNeeded) == CheckWarmTank(old(Now()))
    {
      fillNeeded := false;
      if !fillInProgress && !loggedTankEmpty {
        history := history + [TankEmpty];
        loggedTankEmpty := true;
      }
      flags := flags.(tankFull := Is(false));
      if fillJustDone {
        loggedTankEmpty := false;
        if !dewarEmpty {
          flags := flags.(dewarFull := Is(false));
          history := history + [DewarEmpty];
        }
        dewarEmpty := true;
      } else if !fillInProgress {
        fillNeeded := true;
      }
    }

    method ObserveVacuum(env: Env)
      modifies this
      ensures Now() == Observe(config, old(Now()), env)
    {
      history := history + [Saw(env.pressure, env.tankTemp, flags.enable == Is(true))];
      flags := flags.(pumpdown := Is(env.pressure < config.limitPressure));
    }

    method FillTank()
      modifies this
      ensures Now() == Launch(old(Now()))
    {
      history := history + [FillBegin];
      flags := flags.(fillActive := Is(true));
      older := phase;
      phase := Launched;
    }

    method StartFillIfNeeded(fillNeeded: bool, pumpdown: bool)
      modifies this
      ensures Now() == StartFill(old(Now()), fillNeeded, pumpdown)
    {
      if fillNeeded && pumpdown && !fillJustDone && !dewarEmpty {
        var enabled := IsAutofillEnabled();
        if enabled {
          FillTank();
        }
      }
    }

    method CheckTankTemperature(full: bool) returns (fillNeeded: bool)
      modifies this
      ensures (Now(), fillNeeded) == CheckTank(old(Now()), full)
    {
      fillNeeded := false;
      if !full {
        fillNeeded := HandleWarmTank();
      } else {
        flags := flags.(tankFull := Is(true));
      }
    }

    method BeginTick(env: Env)
      requires !ticking
      modifies this
      ensures Now() == Next(config, old(Now()), TickBody(env))
    {
      ghost var s0 := Now();
      ObserveVacuum(env);
      ghost var s1 := Now();
      HandleDewarFilled();
      ghost var s2 := Now();
      var fillNeeded := CheckTankTemperature(TankIsFull(config, env));
      ghost var s3 := Now();
      StartFillIfNeeded(fillNeeded, PumpedDown(config, env));
      ticking := true;
      assert Now() == StartFill(s3, fillNeeded, PumpedDown(config, env)).(ticking := true);
    }

    method EndTick()
      requires ticking && older == Idle
      modifies this
      ensures Now() == Next(config, old(Now()), TickEnd)
    {
      fillJustDone := false;
      ticking := false;
    }

    /** One action of a fill thread on what the threads share. */
    method Act(p: Phase)
      modifies this
      ensures Now() == ThreadAction(config, old(Now()), p)
    {
      match p {
        case Idle =>
        case Launched => fillInProgress := true;
        case Started =>
          if !config.dryrun {
            relay := true;
          }
        case Pouring =>
          if !config.dryrun {
            relay := false;
          }
        case Poured => history := history + [FillComplete];
        case Logged => flags := flags.(fillActive := Is(false));
        case Deactivated => fillInProgress := false;
        case Finished => fillJustDone := true;
      }
    }

    /** The next action of the thread launched last. */
    method ContinueFill()
      requires phase != Idle
      modifies this
      ensures Now() == Next(config, old(Now()), Thread)
    {
      Act(phase);
      phase := PhaseAfter(phase);
    }

    /** And of the one that the tick waits for. */
    method ContinueOlderFill()
      requires older != Idle
      modifies this
      ensures Now() == Next(config, old(Now()), OlderThread)
    {
      Act(older);
      older := PhaseAfter(older);
    }
  }
}
