/**
 * GPIOService (gpio_controller/services.py) over an abstract GPIO backend.
 *
 * `Hardware` stands for the RPi.GPIO library, the clock and the physical
 * pins together: whether the library could be imported (`hasGpio`), the
 * pins' levels, the calls that completed and the oracle that decides which
 * GPIO calls raise. `GPIOService` is the engine object with its
 * `initialized` flag, and `ServiceHolder` is the module-global
 * `_gpio_service` with `get_gpio_service` and `cleanup_gpio`.
 */
module Services {

  import opened PinEngine

  class Hardware {
    const hasGpio: bool
    const failing: set<nat>
    var pins: map<int, Level>
    var trace: seq<Op>
    var calls: nat

    constructor (hasGpio: bool, failing: set<nat>)
      ensures this.hasGpio == hasGpio && this.failing == failing
      ensures pins == map[] && trace == [] && calls == 0
    {
      this.hasGpio := hasGpio;
      this.failing := failing;
      pins, trace, calls := map[], [], 0;
    }

    function State(): HwState
      reads this
    {
      HwState(pins, trace, calls)
    }

    /** GPIO.setmode(GPIO.BCM) and GPIO.setwarnings(False). */
    method SetMode() returns (ok: bool)
      modifies this
      ensures (State(), ok) == Apply(old(State()), Op.SetMode, failing)
    {
      ok := calls !in failing;
      if ok {
        trace := trace + [Op.SetMode];
      }
      calls := calls + 1;
    }

    /** GPIO.setup(pin, GPIO.OUT, initial=GPIO.HIGH). */
    method Setup(pin: int) returns (ok: bool)
      modifies this
      ensures (State(), ok) == Apply(old(State()), Op.Setup(pin), failing)
    {
      ok := calls !in failing;
      if ok {
        pins := pins[pin := High];
        trace := trace + [Op.Setup(pin)];
      }
      calls := calls + 1;
    }

    /** GPIO.output(pin, level). */
    method Output(pin: int, level: Level) returns (ok: bool)
      modifies this
      ensures (State(), ok) == Apply(old(State()), Write(pin, level), failing)
    {
      ok := calls !in failing;
      if ok {
        pins := pins[pin := level];
        trace := trace + [Write(pin, level)];
      }
      calls := calls + 1;
    }

    /** time.sleep(seconds): a negative duration raises ValueError. */
    method Sleep(seconds: real) returns (ok: bool)
      modifies this
      ensures (State(), ok) == Apply(old(State()), Op.Sleep(seconds), failing)
    {
      ok := seconds >= 0.0;
      if ok {
        trace := trace + [Op.Sleep(seconds)];
      }
    }

    /** GPIO.cleanup(): every channel is released. */
    method Cleanup() returns (ok: bool)
      modifies this
      ensures (State(), ok) == Apply(old(State()), Op.Cleanup, failing)
    {
      ok := calls !in failing;
      if ok {
        pins := map[];
        trace := trace + [Op.Cleanup];
      }
      calls := calls + 1;
    }
  }

  class GPIOService {
    const hw: Hardware
    var initialized: bool

    /** Which branch every operation takes. */
    function Mode(): Mode
      reads this
    {
      if !hw.hasGpio then Mock else if initialized then Hardware else NotInitialised
    }

    constructor (hw: Hardware)
      modifies hw
      ensures this.hw == hw
      ensures initialized == Boot(hw.hasGpio, old(hw.State()), hw.failing).1
      ensures hw.State() == Boot(hw.hasGpio, old(hw.State()), hw.failing).0
    {
      this.hw := hw;
      initialized := false;
      new;
      InitGpio();
    }

    /** _init_gpio: without the library nothing happens; otherwise initialised iff setmode did not raise. */
    method InitGpio()
      modifies this, hw
      ensures !hw.hasGpio ==> initialized == old(initialized)
      ensures hw.hasGpio ==> initialized == Boot(hw.hasGpio, old(hw.State()), hw.failing).1
      ensures hw.State() == Boot(hw.hasGpio, old(hw.State()), hw.failing).0
    {
      if !hw.hasGpio {
        return;
      }
      var ok := hw.SetMode();
      initialized := ok;
    }

    /** setup_pins: both pins become outputs at HIGH, unless in mock mode or not initialised. */
    method SetupPins(resetPin: int, recoveryPin: int)
      modifies hw
      ensures Mode() != Hardware ==> hw.State() == old(hw.State())
      ensures Mode() == Hardware ==> hw.State() == Perform(old(hw.State()), SetupOps(resetPin, recoveryPin), hw.failing).0
    {
      if !hw.hasGpio {
        return;
      }
      if initialized {
        SetupOutcome(hw.State(), resetPin, recoveryPin, hw.failing);
        var ok := hw.Setup(resetPin);
        if ok {
          ok := hw.Setup(recoveryPin);
        }
      }
    }

    /** cleanup: releases the library only when it is there and initialised. */
    method Cleanup()
      modifies hw
      ensures Mode() != Hardware ==> hw.State() == old(hw.State())
      ensures Mode() == Hardware ==> hw.State() == Apply(old(hw.State()), Op.Cleanup, hw.failing).0
    {
      if hw.hasGpio && initialized {
        var _ := hw.Cleanup();
      }
    }

    /** pulse_pin: LOW, sleep `duration`, HIGH. */
    method PulsePin(pin: int, duration: real := PulseDefault) returns (ok: bool)
      modifies hw
      ensures Mode() == Mock ==> ok && hw.State() == old(hw.State())
      ensures Mode() == NotInitialised ==> !ok && hw.State() == old(hw.State())
      ensures Mode() == Hardware ==>
        (hw.State(), ok) == Perform(old(hw.State()), PulseOps(pin, duration), hw.failing)
      ensures Mode() == Hardware && duration >= 0.0 && old(hw.calls) !in hw.failing && old(hw.calls) + 1 !in hw.failing ==>
        ok && hw.trace == old(hw.trace) + [Write(pin, Low), Sleep(duration), Write(pin, High)]
        && hw.pins == old(hw.pins)[pin := High]
    {
      if !hw.hasGpio {
        return true;
      }
      if initialized {
        ghost var s0 := hw.State();
        PulseOutcome(s0, pin, duration, hw.failing);
        ok := hw.Output(pin, Low);
        if !ok {
          return false;
        }
        ok := hw.Sleep(duration);
        if !ok {
          return false;
        }
        ok := hw.Output(pin, High);
        if !ok {
          return false;
        }
        assert s0.pins[pin := Low][pin := High] == s0.pins[pin := High];
        assert s0.trace + [Write(pin, Low)] + [Sleep(duration)] + [Write(pin, High)] == s0.trace + PulseOps(pin, duration);
        return true;
      }
      return false;
    }

    /** hold_pin_low: the calls of pulse_pin, with a longer default. */
    method HoldPinLow(pin: int, duration: real := HoldDefault) returns (ok: bool)
      modifies hw
      ensures Mode() == Mock ==> ok && hw.State() == old(hw.State())
      ensures Mode() == NotInitialised ==> !ok && hw.State() == old(hw.State())
      ensures Mode() == Hardware ==>
        (hw.State(), ok) == Perform(old(hw.State()), HoldLowOps(pin, duration), hw.failing)
      ensures Mode() == Hardware && duration >= 0.0 && old(hw.calls) !in hw.failing && old(hw.calls) + 1 !in hw.failing ==>
        ok && hw.trace == old(hw.trace) + [Write(pin, Low), Sleep(duration), Write(pin, High)]
        && hw.pins == old(hw.pins)[pin := High]
    {
      if !hw.hasGpio {
        return true;
      }
      if initialized {
        ghost var s0 := hw.State();
        PulseOutcome(s0, pin, duration, hw.failing);
        HoldLowIsPulse(pin, duration);
        ok := hw.Output(pin, Low);
        if !ok {
          return false;
        }
        ok := hw.Sleep(duration);
        if !ok {
          return false;
        }
        ok := hw.Output(pin, High);
        if !ok {
          return false;
        }
        assert s0.pins[pin := Low][pin := High] == s0.pins[pin := High];
        assert s0.trace + [Write(pin, Low)] + [Sleep(duration)] + [Write(pin, High)] == s0.trace + PulseOps(pin, duration);
        return true;
      }
      return false;
    }

    /** sequence_ab: hold `pinA` LOW, pulse `pinB` inside the hold, settle, release `pinA`. */
    method SequenceAB(pinA: int, pinB: int, holdTime: real := SequenceHoldDefault, pulseDuration: real := SequencePulseDefault)
      returns (ok: bool)
      modifies hw
      ensures Mode() == Mock ==> ok && hw.State() == old(hw.State())
      ensures Mode() == NotInitialised ==> !ok && hw.State() == old(hw.State())
      ensures Mode() == Hardware ==>
        (hw.State(), ok) == Perform(old(hw.State()), SequenceABOps(pinA, pinB, holdTime, pulseDuration), hw.failing)
    {
      if !hw.hasGpio {
        return true;
      }
      if initialized {
        // `rest` is what remains of the run; each completed call leaves the outcome unchanged
        ghost var goal := Perform(hw.State(), SequenceABOps(pinA, pinB, holdTime, pulseDuration), hw.failing);
        ghost var rest := SequenceABOps(pinA, pinB, holdTime, pulseDuration);
        ok := hw.Output(pinA, Low);
        if !ok {
          return false;
        }
        rest := rest[1..];
        assert goal == Perform(hw.State(), rest, hw.failing);
        ok := hw.Sleep(holdTime);
        if !ok {
          return false;
        }
        rest := rest[1..];
        assert goal == Perform(hw.State(), rest, hw.failing);
        ok := hw.Output(pinB, Low);
        if !ok {
          return false;
        }
        rest := rest[1..];
        assert goal == Perform(hw.State(), rest, hw.failing);
        ok := hw.Sleep(pulseDuration);
        if !ok {
          return false;
        }
        rest := rest[1..];
        assert goal == Perform(hw.State(), rest, hw.failing);
        ok := hw.Output(pinB, High);
        if !ok {
          return false;
        }
        rest := rest[1..];
        assert goal == Perform(hw.State(), rest, hw.failing);
        ok := hw.Sleep(SettleDelay);
        if !ok {
          return false;
        }
        rest := rest[1..];
        assert goal == Perform(hw.State(), rest, hw.failing);
        ok := hw.Output(pinA, High);
        if !ok {
          return false;
        }
        rest := rest[1..];
        assert rest == [];
        assert goal == Perform(hw.State(), rest, hw.failing);
        return true;
      }
      return false;
    }

    /** sequence_ba: hold `pinB` LOW, pulse `pinA` inside the hold, settle, release `pinB`. */
    method SequenceBA(pinA: int, pinB: int, holdTime: real := SequenceHoldDefault, pulseDuration: real := SequencePulseDefault)
      returns (ok: bool)
      modifies hw
      ensures Mode() == Mock ==> ok && hw.State() == old(hw.State())
      ensures Mode() == NotInitialised ==> !ok && hw.State() == old(hw.State())
      ensures Mode() == Hardware ==>
        (hw.State(), ok) == Perform(old(hw.State()), SequenceBAOps(pinA, pinB, holdTime, pulseDuration), hw.failing)
    {
      if !hw.hasGpio {
        return true;
      }
      if initialized {
        // `rest` is what remains of the run; each completed call leaves the outcome unchanged
        ghost var goal := Perform(hw.State(), SequenceBAOps(pinA, pinB, holdTime, pulseDuration), hw.failing);
        ghost var rest := SequenceBAOps(pinA, pinB, holdTime, pulseDuration);
        ok := hw.Output(pinB, Low);
        if !ok {
          return false;
        }
        rest := rest[1..];
        assert goal == Perform(hw.State(), rest, hw.failing);
        ok := hw.Sleep(holdTime);
        if !ok {
          return false;
        }
        rest := rest[1..];
        assert goal == Perform(hw.State(), rest, hw.failing);
        ok := hw.Output(pinA, Low);
        if !ok {
          return false;
        }
        rest := rest[1..];
        assert goal == Perform(hw.State(), rest, hw.failing);
        ok := hw.Sleep(pulseDuration);
        if !ok {
          return false;
        }
        rest := rest[1..];
        assert goal == Perform(hw.State(), rest, hw.failing);
        ok := hw.Output(pinA, High);
        if !ok {
          return false;
        }
        rest := rest[1..];
        assert goal == Perform(hw.State(), rest, hw.failing);
        ok := hw.Sleep(SettleDelay);
        if !ok {
          return false;
        }
        rest := rest[1..];
        assert goal == Perform(hw.State(), rest, hw.failing);
        ok := hw.Output(pinB, High);
        if !ok {
          return false;
        }
        rest := rest[1..];
        assert rest == [];
        assert goal == Perform(hw.State(), rest, hw.failing);
        return true;
      }
      return false;
    }

    /** force_recovery_sequence: sequence_ab led by the force-recovery pin, with the default pulse. */
    method ForceRecoverySequence(forceRecoveryPin: int, resetPin: int, holdTime: real := SequenceHoldDefault)
      returns (ok: bool)
      modifies hw
      ensures Mode() == Mock ==> ok && hw.State() == old(hw.State())
      ensures Mode() == NotInitialised ==> !ok && hw.State() == old(hw.State())
      ensures Mode() == Hardware ==>
        (hw.State(), ok) == Perform(old(hw.State()), SequenceABOps(forceRecoveryPin, resetPin, holdTime, SequencePulseDefault), hw.failing)
    {
      ok := SequenceAB(forceRecoveryPin, resetPin, holdTime := holdTime);
    }

    /** set_pin_state: one write, HIGH for true and LOW for false. */
    method SetPinState(pin: int, state: bool) returns (ok: bool)
      modifies hw
      ensures Mode() == Mock ==> ok && hw.State() == old(hw.State())
      ensures Mode() == NotInitialised ==> !ok && hw.State() == old(hw.State())
      ensures Mode() == Hardware ==>
        (hw.State(), ok) == Perform(old(hw.State()), SetPinOps(pin, state), hw.failing)
    {
      if !hw.hasGpio {
        return true;
      }
      if initialized {
        SetPinOutcome(hw.State(), pin, state, hw.failing);
        ok := hw.Output(pin, if state then High else Low);
        return ok;
      }
      return false;
    }
  }

  /** The module-global `_gpio_service` and the two functions that manage it. */
  class ServiceHolder {
    const hw: Hardware
    var instance: GPIOService?

    ghost predicate Valid()
      reads this, instance
    {
      instance != null ==> instance.hw == hw
    }

    constructor (hw: Hardware)
      ensures this.hw == hw && instance == null && Valid()
    {
      this.hw := hw;
      instance := null;
    }

    /** The hardware state once get_gpio_service() has returned. */
    ghost function AfterGet(): HwState
      reads this, hw
    {
      if instance == null then Boot(hw.hasGpio, hw.State(), hw.failing).0 else hw.State()
    }

    /** The mode of the engine once get_gpio_service() has returned. */
    ghost function ModeAfterGet(): Mode
      reads this, hw, instance
    {
      if instance != null then instance.Mode()
      else if !hw.hasGpio then Mock
      else if Boot(hw.hasGpio, hw.State(), hw.failing).1 then Hardware
      else NotInitialised
    }

    /**
     * What get_gpio_service() leaves behind: an engine is installed (the one
     * that was there, or a new one), in the mode `ModeAfterGet` foretold.
     */
    twostate predicate Served()
      reads this, instance
    {
      && instance != null
      && (old(instance) != null ==> instance == old(instance))
      && (old(instance) == null ==> fresh(instance))
      && instance.Mode() == old(ModeAfterGet())
    }

    /** get_gpio_service: creates (and initialises) the engine on first use, then always returns it. */
    method GetGpioService() returns (svc: GPIOService)
      requires Valid()
      modifies this, hw
      ensures Valid() && instance == svc && svc.hw == hw
      ensures old(instance) != null ==> svc == old(instance)
      ensures old(instance) == null ==> fresh(svc) && svc.initialized == Boot(hw.hasGpio, old(hw.State()), hw.failing).1
      ensures hw.State() == old(AfterGet())
      ensures svc.Mode() == old(ModeAfterGet()) && Served()
    {
      if instance == null {
        instance := new GPIOService(hw);
      }
      svc := instance;
    }

    /** cleanup_gpio: cleans up the engine if there is one and forgets it. */
    method CleanupGpio()
      requires Valid()
      modifies this, hw
      ensures Valid() && instance == null
      ensures old(instance) == null ==> hw.State() == old(hw.State())
      ensures old(instance) != null ==>
        hw.State() == Run(old(instance.Mode()), old(hw.State()), [Op.Cleanup], hw.failing).0
    {
      if instance != null {
        instance.Cleanup();
        instance := null;
      }
    }
  }
}
