/**
 * The cortex runtime of the agent: an object holding the speech duty-cycle counter and the
 * sleep ticker's `skip_sleep` flag, whose tick and loop update them in place and record every
 * call they make to a collaborator.
 */
module Cortex {
  import opened Wrappers
  import opened Commands
  import opened Gating
  import opened Trace
  import opened Ticks

  /** The part of the runtime configuration the cortex decisions read: the agent's name. */
  datatype RuntimeConfig = RuntimeConfig(name: string)

  class CortexRuntime {
    const config: RuntimeConfig
    /** Run a single tick and stop (a development aid). */
    const debugOnce: bool
    /** Ticks since the periodic agent last spoke. */
    var speechDutyCycle: int
    /** The sleep ticker's flag: skip the next wait. */
    var skipSleep: bool
    /** Every call made to a collaborator so far, in order. */
    var calls: seq<Event>

    ghost predicate Valid()
      reads this
    {
      0 <= speechDutyCycle <= SpeechThreshold
    }

    /** A fresh runtime: the counter at 0 and nothing called yet. The sleep ticker's flag is
        whatever the ticker starts with. */
    constructor (config: RuntimeConfig, debugOnce: bool)
      ensures Valid()
      ensures this.config == config && this.debugOnce == debugOnce
      ensures speechDutyCycle == 0 && calls == []
    {
      this.config := config;
      this.debugOnce := debugOnce;
      speechDutyCycle := 0;
      calls := [];
    }

    /** One tick, with `r` standing for what the collaborators answer during it. */
    method Tick(r: Replies)
      requires Valid()
      modifies this
      ensures Valid()
      ensures skipSleep == old(skipSleep)
      ensures var t := TickStep(config.name, old(speechDutyCycle), r);
              calls == old(calls) + t.events && speechDutyCycle == t.dutyCycle
    {
      calls := calls + [Flush];
      var finished := r.finished;
      calls := calls + [Fuse(finished)];
      var prompt := r.prompt;
      if prompt.None? {
        return;
      }
      calls := calls + [Ask(prompt.value)];
      var output := r.output;
      if output.None? {
        return;
      }
      var commands := output.value.commands;
      calls := calls + [SimulatorPromise(commands)];
      Dispatch(prompt.value, commands);
    }

    /** The action dispatch of a tick: promise the full or the silent command list to the
        actions, by the precedence of the prompt's markers and the agent's name, moving the
        duty-cycle counter for the periodic agent. */
    method Dispatch(prompt: string, commands: seq<Command>)
      requires Valid()
      modifies this
      ensures Valid()
      ensures skipSleep == old(skipSleep)
      ensures var d := Gate(prompt, config.name, old(speechDutyCycle), commands);
              calls == old(calls) + [ActionPromise(d.sent)] && speechDutyCycle == d.dutyCycle
    {
      var silent := SilentCommands(commands);
      if Contains(prompt, VoiceInput) || Contains(prompt, WalletCoinbase) {
        calls := calls + [ActionPromise(commands)];
      } else if config.name == SpotSpeak {
        calls := calls + [ActionPromise(commands)];
      } else if config.name == TurtleSpeak {
        speechDutyCycle := speechDutyCycle + 1;
        if speechDutyCycle > SpeechThreshold {
          calls := calls + [ActionPromise(commands)];
          speechDutyCycle := 0;
        } else {
          calls := calls + [ActionPromise(silent)];
        }
      } else {
        calls := calls + [ActionPromise(silent)];
      }
    }

    /** One pass of the paced loop: sleep unless `skip_sleep` is set, tick, clear the flag. */
    method Iterate(it: Iteration)
      requires Valid()
      modifies this
      ensures Valid()
      ensures var pause: seq<Event> := if old(skipSleep) then [] else [Sleep];
              var t := TickStep(config.name, old(speechDutyCycle), it.replies);
              calls == old(calls) + pause + t.events && speechDutyCycle == t.dutyCycle && !skipSleep
    {
      if !skipSleep {
        calls := calls + [Sleep];
      }
      if it.raisedSkip {
        // another task set the flag while this iteration was suspended
        skipSleep := true;
      }
      Tick(it.replies);
      skipSleep := false;
    }

    /** The cortex loop over the iterations of `schedule`: a single tick in debug-once mode,
        otherwise, per iteration, a sleep unless `skip_sleep` is set, a tick, and the flag
        cleared. */
    method RunCortexLoop(schedule: seq<Iteration>)
      requires Valid()
      requires debugOnce ==> |schedule| > 0
      modifies this
      ensures Valid()
      ensures var res := CortexLoop(config.name, debugOnce, old(speechDutyCycle), old(skipSleep), schedule);
              calls == old(calls) + res.events && speechDutyCycle == res.dutyCycle && skipSleep == res.skipSleep
    {
      if debugOnce {
        Tick(schedule[0].replies);
      } else {
        ghost var whole := LoopRun(config.name, speechDutyCycle, skipSleep, schedule);
        assert schedule[0..] == schedule;
        var i := 0;
        while i < |schedule|
          invariant 0 <= i <= |schedule|
          invariant Valid()
          invariant var rest := LoopRun(config.name, speechDutyCycle, skipSleep, schedule[i..]);
                    old(calls) + whole.events == calls + rest.events
                    && whole.dutyCycle == rest.dutyCycle && whole.skipSleep == rest.skipSleep
        {
          ghost var before := calls;
          ghost var pause: seq<Event> := if skipSleep then [] else [Sleep];
          ghost var t := TickStep(config.name, speechDutyCycle, schedule[i].replies);
          ghost var rest := LoopRun(config.name, t.dutyCycle, false, schedule[i + 1..]);
          LoopRunFrom(config.name, speechDutyCycle, skipSleep, schedule, i);
          Iterate(schedule[i]);
          AppendRegroup(before, pause, t.events, rest.events);
          i := i + 1;
        }
        assert schedule[|schedule|..] == [];
      }
    }
  }
}
