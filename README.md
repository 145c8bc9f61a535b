# Cortex runtime tick and loop

This project models the cortex runtime of the OM1 agent runtime (`CortexRuntime` in
`src/runtime/cortex.py`). It is the driver that, once per period, does the following:

1. Collects the finished action results.
2. Has the fuser build a prompt.
3. Asks the cortex LLM for an output.
4. Promises the output's commands to the simulator orchestrator.
5. Promises them to the action orchestrator, either in full or with every `speak` command
   filtered out.

A fixed precedence of checks on the prompt and the agent's name decides between full and
filtered. A prompt carrying a voice or payment marker always gets the full list. Otherwise a
duty-cycle counter throttles the periodically speaking agent `turtle_speak`. The counter
advances only on ticks that reach the dispatch without such a marker. On one of every 13 of
those ticks the agent gets the full list.

The model has these modules:

- `Commands`: commands, LLM outputs, and the "silent" selection of commands. The selection is
  a specification function plus the runtime's building loop (`SilentCommands`).
- `Gating`: Python's substring test (`Contains`), the marker and agent-name constants, the
  threshold 12, and the dispatch decision `Gate`.
- `Trace`: the calls the runtime makes to its collaborators (`Event`), counted by kind.
- `Ticks`: specification functions for one tick (`TickStep`) and for the loop (`LoopRun`,
  `CortexLoop`), with the lemmas about them.
- `Cortex`: the class `CortexRuntime`. Its fields are the speech duty-cycle counter, the sleep
  ticker's `skip_sleep` flag and the record of calls made so far. Its methods `Tick`,
  `Dispatch`, `Iterate` and `RunCortexLoop` update those fields in place. Each method's
  `ensures` ties the new state to the specification functions above.

The collaborators are outside the model. The action orchestrator, the fuser, the LLM, the
simulator orchestrator and the sleep ticker appear only through:

- what they answer during a tick (`Ticks.Replies`: the finished results, the prompt or none,
  the output or none);
- the calls the runtime makes to them, recorded in order as `Trace.Event`s.

The Python `while True` loop runs over a finite schedule of iterations (`Ticks.Iteration`).
Each iteration also says whether another task raised `skip_sleep` while it was suspended.

The duty-cycle counter is a field of each runtime object, as in the code.

## Model

| member | source | states |
|---|---|---|
| Commands.Silent | src/runtime/cortex.py:156-161 | the silent list is no longer than the output's commands and holds no `speak` command |
| Commands.SilentCommands | src/runtime/cortex.py:156-161 | the loop that builds `commands_silent` returns exactly the non-`speak` selection `Silent` of the output's commands |
| Commands.SilentIsOrderedSelection | src/runtime/cortex.py:156-161 | the silent list is an order-preserving selection: its k-th element is the command at the k-th kept position, kept positions strictly increase, and a position is kept exactly when its command's type is not `speak` |
| Commands.SilentMembership | src/runtime/cortex.py:157-160 | a command is in the silent list if and only if it is among the output's commands and its type is not `speak` |
| Commands.SilentKeepsAllIffNoSpeech | src/runtime/cortex.py:159-160 | the silent list equals the full list if and only if no command is `speak` |
| Commands.SilentIdempotent | src/runtime/cortex.py:156-161 | filtering an already silent list changes nothing |
| Gating.Contains | src/runtime/cortex.py:164 | the substring test always finds the empty string, and finds a marker only in a prompt at least as long |
| Gating.ContainsIff | src/runtime/cortex.py:164 | the substring test holds if and only if the marker occurs at some position of the prompt |
| Gating.Gate | src/runtime/cortex.py:163-183 | the list sent to the actions is always either the full or the silent list, and the counter either stays, advances by one or resets to 0 |
| Gating.UrgentSendsFull | src/runtime/cortex.py:164-166 | a prompt in which "Voice INPUT" or "WalletCoinbase" occurs sends the full list and leaves the counter unchanged, whatever the agent's name |
| Gating.SpotSpeakSendsFull | src/runtime/cortex.py:167-169 | without an urgent marker, `spot_speak` sends the full list and leaves the counter unchanged |
| Gating.OtherAgentsStaySilent | src/runtime/cortex.py:181-183 | without an urgent marker, any other agent than the two speaking ones sends the silent list with the counter unchanged |
| Gating.FullExactlyWhen | src/runtime/cortex.py:163-183 | a full-list branch is taken exactly when the prompt is urgent, or the agent is `spot_speak`, or it is `turtle_speak` with the incremented counter above 12; otherwise the silent list is sent (the two lists coincide when no command is `speak`) |
| Gating.CounterMovesOnlyForTurtle | src/runtime/cortex.py:170-177 | the counter changes only for `turtle_speak` without an urgent marker |
| Gating.TurtleStep | src/runtime/cortex.py:170-180 | in the `turtle_speak` branch the counter advances by one modulo 13, and the full list goes out exactly on the wrap to 0 |
| Gating.CounterStaysInRange | src/runtime/cortex.py:173-177 | a counter within 0..12 stays within 0..12 |
| Ticks.TickStep | src/runtime/cortex.py:127-183 | a tick makes between 2 and 5 calls; the first is the flush and the second the fuse with the flushed results; a third call exists only with a prompt, and it asks the LLM with that prompt |
| Ticks.TickFlushesAndFusesOnce | src/runtime/cortex.py:138-142 | every tick flushes first and fuses second, each exactly once, and never sleeps |
| Ticks.TickCounts | src/runtime/cortex.py:138-183 | a tick makes 2 calls without a prompt, 3 without an output and 5 otherwise; for each kind of call it gives the count as the flush, the fuse, the ask, the simulator promise of the full list and the action promise of the gated list, in those cases |
| Ticks.NoPromptEndsTick | src/runtime/cortex.py:142-145 | with no prompt there is no LLM call, nothing is promised to either orchestrator, and the counter is unchanged |
| Ticks.NoOutputEndsTick | src/runtime/cortex.py:147-151 | with no output the LLM was asked once with the prompt, nothing is promised to either orchestrator, and the counter is unchanged |
| Ticks.DispatchOrder | src/runtime/cortex.py:153-183 | with an output the simulator gets the full list exactly once and the actions get one promise carrying the gated list; the simulator call comes before the action call |
| Ticks.TickCounter | src/runtime/cortex.py:170-177 | across a whole tick the counter moves only in a dispatching `turtle_speak` tick without an urgent marker, and stays within 0..12 |
| Ticks.LoopRun | src/runtime/cortex.py:120-125 | a paced run of n iterations makes between 2n and 6n calls, and an empty run leaves `skip_sleep` as it was |
| Ticks.CortexLoop | src/runtime/cortex.py:116-125 | in debug-once mode the loop makes the 2 to 5 calls of one tick and leaves `skip_sleep` alone; otherwise it makes between 2n and 6n calls for n iterations |
| Ticks.DebugOnceTicksOnce | src/runtime/cortex.py:116-119 | in debug-once mode exactly one tick runs and there is no sleep |
| Ticks.LoopPacing | src/runtime/cortex.py:120-125 | n iterations give n ticks and n sleeps, minus one sleep when `skip_sleep` was set on entry; `skip_sleep` is clear afterwards, whatever other tasks raised |
| Ticks.LoopCounterInRange | src/runtime/cortex.py:121-125 | over any run of the loop a counter within 0..12 stays within 0..12 |
| Ticks.TurtleRunLength | src/runtime/cortex.py:170-180 | over `turtle_speak` iterations that all dispatch, there is one action promise per iteration, and the counter ends at its start plus n, modulo 13 |
| Ticks.TurtleRunPayloads | src/runtime/cortex.py:170-180 | over `turtle_speak` iterations that all dispatch, there is one action promise per iteration |
| Ticks.TurtleRunCounter | src/runtime/cortex.py:170-177 | over such iterations the counter ends at its start plus n, modulo 13 |
| Ticks.TurtleSentAt | src/runtime/cortex.py:170-180 | the k-th action promise of such a run is the full list exactly when the start counter plus k + 1 is a multiple of 13, and the silent list otherwise |
| Ticks.TurtleCycle | src/runtime/cortex.py:170-180 | the same for every k at once, together with the promise count and the final counter |
| Ticks.ThirteenthTickSpeaks | src/runtime/cortex.py:170-180 | from counter 0, 13 dispatching `turtle_speak` ticks send the silent list 12 times and the full list on the 13th, ending at counter 0 |
| Cortex.CortexRuntime.constructor | src/runtime/cortex.py:36-55 | a new runtime has counter 0, has made no call, and keeps its name and debug-once setting |
| Cortex.CortexRuntime.Tick | src/runtime/cortex.py:127-183 | a tick appends exactly the calls of `TickStep` to the record, sets the counter to `TickStep`'s counter, keeps it within 0..12, and leaves `skip_sleep` alone |
| Cortex.CortexRuntime.Dispatch | src/runtime/cortex.py:156-183 | the dispatch appends one action promise carrying the list `Gate` chooses, sets the counter as `Gate` says, keeps it within 0..12, and leaves `skip_sleep` alone |
| Cortex.CortexRuntime.Iterate | src/runtime/cortex.py:122-125 | one pass of the paced loop sleeps exactly when `skip_sleep` was clear, then ticks as `TickStep` says, and leaves `skip_sleep` clear |
| Cortex.CortexRuntime.RunCortexLoop | src/runtime/cortex.py:104-125 | the loop appends exactly the calls of `CortexLoop` (one tick in debug-once mode, else the paced run) and ends with its counter and `skip_sleep` |

## Left out

- Raised exceptions are not modelled. The model assumes every collaborator call returns:
  `flush_promises`, `fuse`, `ask` and both `promise` calls. It also assumes the sleep-duration
  division `1 / hertz` returns, which fails when `hertz` is 0. The source catches nothing
  (src/runtime/cortex.py:121-183): a raise ends the tick after only the calls before it, and
  ends the loop. `Ticks.TickStep` always gives a complete tick, and `Ticks.LoopRun` runs every
  iteration of its schedule.
- Starting the runtime is not modelled: the concurrent `run`, the input listeners and the
  simulator and action start tasks are asyncio scheduling (src/runtime/cortex.py:61-102).
- Orchestrator internals are outside the model: the action orchestrator, the simulator
  orchestrator and the input orchestrator are separate components. Their calls appear as
  recorded events with the arguments passed.
- The fuser and the LLM are not modelled. Their answers are inputs of each tick (the prompt
  or none, the output or none). The prompt-building rules are not part of this model.
- The sleep duration `1 / hertz` is not modelled. A sleep is recorded as one event, and
  timing and frequency are outside the model.
- The evaluation logger and the `logging` warnings and debug lines (src/runtime/cortex.py:185-195)
  are side channels that do not affect any decision.
- The IO provider is not modelled; it is created and never used by the modelled code.
- The initial value of `skip_sleep` is not fixed. The sleep ticker provider is not part of
  this model, so the constructor leaves the flag unconstrained and every property is stated
  for either value.
- Cortex.CortexRuntime.RunCortexLoop: it runs over a finite schedule of iterations rather
  than forever. Each property holds for every finite prefix of the endless loop.
- Ticks.LoopRun: a `skip_sleep` raised while a tick runs is cleared by the loop's own reset
  (src/runtime/cortex.py:125) before the next wait, so the next iteration still sleeps. The
  model keeps this behaviour of the code. Whether the sleep ticker makes up for it is not part
  of this model.
- Cortex.CortexRuntime.Iterate: another task raising `skip_sleep` is modelled at one point
  per iteration, before the tick. Other interleavings of the concurrent tasks, and a sleep cut
  short by the flag, are not modelled.
