/**
 * What one tick of the cortex, and a run of the cortex loop, do to the outside world: the
 * calls they make to the action orchestrator, the fuser, the LLM, the simulator orchestrator
 * and the sleep ticker, in order, and the duty-cycle counter they leave behind.
 */
module Ticks {
  import opened Wrappers
  import opened Commands
  import opened Gating
  import opened Trace

  /** What the collaborators answer during one tick: the finished action results, the
      fuser's prompt (if any) and the LLM's output (if any, consulted only after a prompt). */
  datatype Replies = Replies(finished: seq<PromiseResult>, prompt: Option<string>, output: Option<Output>)

  /** The calls one tick makes, and the duty-cycle counter after it. */
  datatype TickResult = TickResult(events: seq<Event>, dutyCycle: int)

  /** One tick: flush, fuse, stop without a prompt, ask, stop without an output, promise the
      full list to the simulator, then promise the gated list to the actions. */
  function TickStep(name: string, dutyCycle: int, r: Replies): (t: TickResult)
    ensures 2 <= |t.events| <= 5
    ensures t.events[0] == Flush && t.events[1] == Fuse(r.finished)
    ensures |t.events| > 2 ==> r.prompt.Some? && t.events[2] == Ask(r.prompt.value)
  {
    var head := [Flush, Fuse(r.finished)];
    match r.prompt
    case None => TickResult(head, dutyCycle)
    case Some(prompt) =>
      match r.output
      case None => TickResult(head + [Ask(prompt)], dutyCycle)
      case Some(out) =>
        var d := Gate(prompt, name, dutyCycle, out.commands);
        TickResult(head + [Ask(prompt), SimulatorPromise(out.commands), ActionPromise(d.sent)], d.dutyCycle)
  }

  /** The tick reaches the dispatch stage: the fuser gave a prompt and the LLM an output. */
  predicate Dispatches(r: Replies)
  {
    r.prompt.Some? && r.output.Some?
  }

  /** How many calls of each kind one tick makes. */
  lemma TickCounts(name: string, dutyCycle: int, r: Replies, k: CallKind)
    ensures var e := TickStep(name, dutyCycle, r).events;
            |e| == 2 + (if r.prompt.None? then 0 else 1 + (if r.output.None? then 0 else 2))
    ensures var e := TickStep(name, dutyCycle, r).events;
            Count(e, k) == Ind(Flush, k) + Ind(Fuse(r.finished), k)
                           + (if r.prompt.None? then 0
                              else Ind(Ask(r.prompt.value), k)
                                   + (if r.output.None? then 0
                                      else Ind(SimulatorPromise(r.output.value.commands), k)
                                           + Ind(ActionPromise(Gate(r.prompt.value, name, dutyCycle,
                                                                    r.output.value.commands).sent), k)))
  {
    var e := TickStep(name, dutyCycle, r).events;
    if r.prompt.None? {
      CountCons(Fuse(r.finished), [], k);
      CountCons(Flush, [Fuse(r.finished)], k);
    } else if r.output.None? {
      CountAppend([Flush, Fuse(r.finished)], [Ask(r.prompt.value)], k);
      CountPair(Flush, Fuse(r.finished), k);
      CountCons(Ask(r.prompt.value), [], k);
    } else {
      CountAppend(e[..2], e[2..], k);
      CountPair(e[0], e[1], k);
      assert e[2..] == [e[2]] + [e[3], e[4]];
      CountCons(e[2], [e[3], e[4]], k);
      CountPair(e[3], e[4], k);
    }
  }

  lemma CountPair(a: Event, b: Event, k: CallKind)
    ensures Count([a, b], k) == Ind(a, k) + Ind(b, k)
  {
    CountCons(b, [], k);
    assert [a, b] == [a] + [b];
    CountCons(a, [b], k);
  }

  /** Every tick starts by flushing finished results and then fusing, does each exactly once,
      and never sleeps. */
  lemma TickFlushesAndFusesOnce(name: string, dutyCycle: int, r: Replies)
    ensures var e := TickStep(name, dutyCycle, r).events;
            |e| >= 2 && e[0] == Flush && e[1] == Fuse(r.finished)
            && Count(e, FlushCall) == 1 && Count(e, FuseCall) == 1 && Count(e, SleepCall) == 0
  {
    TickCounts(name, dutyCycle, r, FlushCall);
    TickCounts(name, dutyCycle, r, FuseCall);
    TickCounts(name, dutyCycle, r, SleepCall);
  }

  /** Without a prompt the tick ends: no LLM call, nothing promised to either orchestrator,
      and the counter unchanged. */
  lemma NoPromptEndsTick(name: string, dutyCycle: int, r: Replies)
    requires r.prompt.None?
    ensures var t := TickStep(name, dutyCycle, r);
            Count(t.events, AskCall) == 0 && Count(t.events, SimulatorCall) == 0
            && Count(t.events, ActionCall) == 0 && t.dutyCycle == dutyCycle
  {
    TickCounts(name, dutyCycle, r, AskCall);
    TickCounts(name, dutyCycle, r, SimulatorCall);
    TickCounts(name, dutyCycle, r, ActionCall);
  }

  /** Without an LLM output the tick has asked the LLM once, promises nothing to either
      orchestrator, and leaves the counter unchanged. */
  lemma NoOutputEndsTick(name: string, dutyCycle: int, r: Replies)
    requires r.prompt.Some? && r.output.None?
    ensures var t := TickStep(name, dutyCycle, r);
            Count(t.events, AskCall) == 1 && Ask(r.prompt.value) in t.events
            && Count(t.events, SimulatorCall) == 0 && Count(t.events, ActionCall) == 0
            && t.dutyCycle == dutyCycle
  {
    TickCounts(name, dutyCycle, r, AskCall);
    TickCounts(name, dutyCycle, r, SimulatorCall);
    TickCounts(name, dutyCycle, r, ActionCall);
    assert TickStep(name, dutyCycle, r).events[2] == Ask(r.prompt.value);
  }

  /** A tick that has an output promises the unfiltered list to the simulator exactly once
      and promises exactly once to the actions, with the gated list; the simulator call comes
      before the action call, and the counter is the one the gate leaves. */
  lemma DispatchOrder(name: string, dutyCycle: int, r: Replies)
    requires Dispatches(r)
    ensures var t := TickStep(name, dutyCycle, r);
            var d := Gate(r.prompt.value, name, dutyCycle, r.output.value.commands);
            Count(t.events, SimulatorCall) == 1 && SimulatorPromise(r.output.value.commands) in t.events
            && Count(t.events, ActionCall) == 1 && ActionPayloads(t.events) == [d.sent]
            && t.dutyCycle == d.dutyCycle
    ensures var e := TickStep(name, dutyCycle, r).events;
            forall i, j :: 0 <= i < |e| && 0 <= j < |e| && e[i].SimulatorPromise? && e[j].ActionPromise? ==> i < j
  {
    TickCounts(name, dutyCycle, r, SimulatorCall);
    TickCounts(name, dutyCycle, r, ActionCall);
    var d := Gate(r.prompt.value, name, dutyCycle, r.output.value.commands);
    var e := TickStep(name, dutyCycle, r).events;
    var head := e[..3];
    var tail := e[3..];
    assert e == head + tail;
    ActionPayloadsAppend(head, tail);
    assert head[1..][1..][1..] == [];
    assert ActionPayloads(head[1..][1..]) == [];
    assert ActionPayloads(head[1..]) == [];
    assert tail[1..][1..] == [];
    assert ActionPayloads(tail[1..]) == [d.sent];
  }

  /** The counter moves only in a dispatching tick of the periodic agent without an urgent
      input, and a counter within 0..12 stays within 0..12. */
  lemma TickCounter(name: string, dutyCycle: int, r: Replies)
    ensures var t := TickStep(name, dutyCycle, r);
            t.dutyCycle != dutyCycle ==> Dispatches(r) && name == TurtleSpeak && !Urgent(r.prompt.value)
    ensures 0 <= dutyCycle <= SpeechThreshold ==> 0 <= TickStep(name, dutyCycle, r).dutyCycle <= SpeechThreshold
  {
    if Dispatches(r) {
      CounterMovesOnlyForTurtle(r.prompt.value, name, dutyCycle, r.output.value.commands);
    }
  }

  /** One iteration of the cortex loop: whether some other task raised `skip_sleep` while the
      iteration was suspended in its sleep or its tick, and the collaborators' replies. */
  datatype Iteration = Iteration(raisedSkip: bool, replies: Replies)

  /** The calls a run of the loop makes, the counter and the `skip_sleep` flag after it. */
  datatype LoopResult = LoopResult(events: seq<Event>, dutyCycle: int, skipSleep: bool)

  /** The cortex loop over the given iterations: each sleeps unless `skip_sleep` is set,
      ticks, and then clears `skip_sleep` (so a flag raised during the iteration is lost). */
  function LoopRun(name: string, dutyCycle: int, skipSleep: bool, schedule: seq<Iteration>): (res: LoopResult)
    ensures 2 * |schedule| <= |res.events| <= 6 * |schedule|
    ensures |schedule| == 0 ==> res.skipSleep == skipSleep
    decreases |schedule|
  {
    if |schedule| == 0 then LoopResult([], dutyCycle, skipSleep)
    else
      var pause := if skipSleep then [] else [Sleep];
      var t := TickStep(name, dutyCycle, schedule[0].replies);
      var rest := LoopRun(name, t.dutyCycle, false, schedule[1..]);
      LoopResult(pause + t.events + rest.events, rest.dutyCycle, rest.skipSleep)
  }

  /** The run from the i-th iteration on: that iteration's sleep and tick, then the rest. */
  lemma LoopRunFrom(name: string, dutyCycle: int, skipSleep: bool, schedule: seq<Iteration>, i: int)
    requires 0 <= i < |schedule|
    ensures var pause: seq<Event> := if skipSleep then [] else [Sleep];
            var t := TickStep(name, dutyCycle, schedule[i].replies);
            var rest := LoopRun(name, t.dutyCycle, false, schedule[i + 1..]);
            LoopRun(name, dutyCycle, skipSleep, schedule[i..])
              == LoopResult(pause + t.events + rest.events, rest.dutyCycle, rest.skipSleep)
  {
    assert schedule[i..][1..] == schedule[i + 1..];
  }

  /** The whole loop: a single tick and no sleep in debug-once mode, otherwise the paced run. */
  function CortexLoop(name: string, debugOnce: bool, dutyCycle: int, skipSleep: bool,
                      schedule: seq<Iteration>): (res: LoopResult)
    requires debugOnce ==> |schedule| > 0
    ensures debugOnce ==> 2 <= |res.events| <= 5 && res.skipSleep == skipSleep
    ensures !debugOnce ==> 2 * |schedule| <= |res.events| <= 6 * |schedule|
  {
    if debugOnce then
      var t := TickStep(name, dutyCycle, schedule[0].replies);
      LoopResult(t.events, t.dutyCycle, skipSleep)
    else LoopRun(name, dutyCycle, skipSleep, schedule)
  }

  /** In debug-once mode exactly one tick runs and nothing sleeps. */
  lemma DebugOnceTicksOnce(name: string, dutyCycle: int, skipSleep: bool, schedule: seq<Iteration>)
    requires |schedule| > 0
    ensures var e := CortexLoop(name, true, dutyCycle, skipSleep, schedule).events;
            Count(e, FlushCall) == 1 && Count(e, SleepCall) == 0
  {
    TickFlushesAndFusesOnce(name, dutyCycle, schedule[0].replies);
  }

  /** A paced run of n iterations ticks n times and sleeps n times, except that the first
      iteration skips its sleep when `skip_sleep` was set on entry; afterwards `skip_sleep`
      is clear, whatever other tasks raised meanwhile. */
  lemma {:induction false} LoopPacing(name: string, dutyCycle: int, skipSleep: bool, schedule: seq<Iteration>)
    ensures var res := LoopRun(name, dutyCycle, skipSleep, schedule);
            Count(res.events, FlushCall) == |schedule|
            && Count(res.events, SleepCall) == |schedule| - (if skipSleep && |schedule| > 0 then 1 else 0)
            && (|schedule| > 0 ==> !res.skipSleep)
    decreases |schedule|
  {
    if |schedule| > 0 {
      var pause: seq<Event> := if skipSleep then [] else [Sleep];
      var t := TickStep(name, dutyCycle, schedule[0].replies);
      var rest := LoopRun(name, t.dutyCycle, false, schedule[1..]);
      LoopPacing(name, t.dutyCycle, false, schedule[1..]);
      TickFlushesAndFusesOnce(name, dutyCycle, schedule[0].replies);
      CountAppend(pause + t.events, rest.events, FlushCall);
      CountAppend(pause, t.events, FlushCall);
      CountAppend(pause + t.events, rest.events, SleepCall);
      CountAppend(pause, t.events, SleepCall);
      assert Count(pause, FlushCall) == 0;
    }
  }

  /** A counter within 0..12 stays within 0..12 over any run of the loop. */
  lemma {:induction false} LoopCounterInRange(name: string, dutyCycle: int, skipSleep: bool, schedule: seq<Iteration>)
    requires 0 <= dutyCycle <= SpeechThreshold
    ensures 0 <= LoopRun(name, dutyCycle, skipSleep, schedule).dutyCycle <= SpeechThreshold
    decreases |schedule|
  {
    if |schedule| > 0 {
      var t := TickStep(name, dutyCycle, schedule[0].replies);
      TickCounter(name, dutyCycle, schedule[0].replies);
      LoopCounterInRange(name, t.dutyCycle, false, schedule[1..]);
    }
  }

  /** The iteration reaches the periodic agent's branch: a prompt without a voice or payment
      marker, and an LLM output. */
  predicate TurtleDispatch(it: Iteration)
  {
    Dispatches(it.replies) && !Urgent(it.replies.prompt.value)
  }

  /** The commands of the iteration's LLM output (none without an output). */
  function CommandsOf(it: Iteration): (cmds: seq<Command>)
  {
    match it.replies.output
    case None => []
    case Some(out) => out.commands
  }

  /** What the periodic agent sends on the k-th tick (counting from 0) of a run that starts
      with counter `dutyCycle`: the full list when dutyCycle + k + 1 is a multiple of 13, the
      silent list otherwise. */
  function TurtleSends(dutyCycle: int, k: int, it: Iteration): (sent: seq<Command>)
  {
    if (dutyCycle + k + 1) % (SpeechThreshold + 1) == 0 then CommandsOf(it) else Silent(CommandsOf(it))
  }

  /** One more iteration of the loop adds its tick's action payloads in front of the rest. */
  lemma LoopRunStep(name: string, dutyCycle: int, skipSleep: bool, schedule: seq<Iteration>)
    requires |schedule| > 0
    ensures var t := TickStep(name, dutyCycle, schedule[0].replies);
            var rest := LoopRun(name, t.dutyCycle, false, schedule[1..]);
            ActionPayloads(LoopRun(name, dutyCycle, skipSleep, schedule).events)
              == ActionPayloads(t.events) + ActionPayloads(rest.events)
            && LoopRun(name, dutyCycle, skipSleep, schedule).dutyCycle == rest.dutyCycle
  {
    var pause: seq<Event> := if skipSleep then [] else [Sleep];
    var t := TickStep(name, dutyCycle, schedule[0].replies);
    var rest := LoopRun(name, t.dutyCycle, false, schedule[1..]);
    assert LoopRun(name, dutyCycle, skipSleep, schedule).events == pause + t.events + rest.events;
    PausedPayloads(pause, t.events, rest.events);
  }

  /** A sleep before a tick promises nothing to the actions. */
  lemma PausedPayloads(pause: seq<Event>, tick: seq<Event>, rest: seq<Event>)
    requires pause == [] || pause == [Sleep]
    ensures ActionPayloads(pause + tick + rest) == ActionPayloads(tick) + ActionPayloads(rest)
  {
    ActionPayloadsAppend(pause + tick, rest);
    ActionPayloadsAppend(pause, tick);
    assert ActionPayloads(pause) == [];
  }

  /** A run of the periodic agent over iterations that all reach its branch promises once
      to the actions per iteration, and advances the counter by one per tick modulo 13. */
  lemma TurtleRunLength(dutyCycle: int, skipSleep: bool, schedule: seq<Iteration>)
    requires 0 <= dutyCycle <= SpeechThreshold
    requires forall k :: 0 <= k < |schedule| ==> TurtleDispatch(schedule[k])
    ensures var res := LoopRun(TurtleSpeak, dutyCycle, skipSleep, schedule);
            |ActionPayloads(res.events)| == |schedule|
            && res.dutyCycle == (dutyCycle + |schedule|) % (SpeechThreshold + 1)
  {
    TurtleRunPayloads(dutyCycle, skipSleep, schedule);
    TurtleRunCounter(dutyCycle, skipSleep, schedule);
  }

  /** One action promise per iteration of such a run. */
  lemma {:induction false} TurtleRunPayloads(dutyCycle: int, skipSleep: bool, schedule: seq<Iteration>)
    requires 0 <= dutyCycle <= SpeechThreshold
    requires forall k :: 0 <= k < |schedule| ==> TurtleDispatch(schedule[k])
    ensures |ActionPayloads(LoopRun(TurtleSpeak, dutyCycle, skipSleep, schedule).events)| == |schedule|
    decreases |schedule|
  {
    if |schedule| > 0 {
      var next := TickStep(TurtleSpeak, dutyCycle, schedule[0].replies).dutyCycle;
      TurtleFirst(dutyCycle, schedule[0]);
      TailDispatches(schedule);
      TurtleRunPayloads(next, false, schedule[1..]);
      LoopRunStep(TurtleSpeak, dutyCycle, skipSleep, schedule);
    }
  }

  /** The counter after such a run: its start advanced by the number of iterations, modulo 13. */
  lemma {:induction false} TurtleRunCounter(dutyCycle: int, skipSleep: bool, schedule: seq<Iteration>)
    requires 0 <= dutyCycle <= SpeechThreshold
    requires forall k :: 0 <= k < |schedule| ==> TurtleDispatch(schedule[k])
    ensures LoopRun(TurtleSpeak, dutyCycle, skipSleep, schedule).dutyCycle
              == (dutyCycle + |schedule|) % (SpeechThreshold + 1)
    decreases |schedule|
  {
    if |schedule| > 0 {
      var next := TickStep(TurtleSpeak, dutyCycle, schedule[0].replies).dutyCycle;
      var tail := schedule[1..];
      TurtleFirst(dutyCycle, schedule[0]);
      TailDispatches(schedule);
      TurtleRunCounter(next, false, tail);
      ModShift(dutyCycle, next, |tail|, |schedule|);
    }
  }

  /** The k-th action promise of such a run carries the full list exactly when
      dutyCycle + k + 1 is a multiple of 13, and the silent list otherwise. */
  lemma {:induction false} TurtleSentAt(dutyCycle: int, skipSleep: bool, schedule: seq<Iteration>, k: nat)
    requires 0 <= dutyCycle <= SpeechThreshold
    requires forall k :: 0 <= k < |schedule| ==> TurtleDispatch(schedule[k])
    requires k < |schedule|
    ensures var sent := ActionPayloads(LoopRun(TurtleSpeak, dutyCycle, skipSleep, schedule).events);
            k < |sent| && sent[k] == TurtleSends(dutyCycle, k, schedule[k])
    decreases k
  {
    var next := TickStep(TurtleSpeak, dutyCycle, schedule[0].replies).dutyCycle;
    var tail := schedule[1..];
    TurtleFirst(dutyCycle, schedule[0]);
    LoopRunStep(TurtleSpeak, dutyCycle, skipSleep, schedule);
    TailDispatches(schedule);
    TurtleRunLength(next, false, tail);
    if k > 0 {
      TurtleSentAt(next, false, tail, k - 1);
      assert tail[k - 1] == schedule[k];
      TurtleSendsShift(dutyCycle, next, k, schedule[k]);
    }
  }

  /** Dropping the first iteration keeps every iteration in the periodic agent's branch. */
  lemma TailDispatches(schedule: seq<Iteration>)
    requires |schedule| > 0
    requires forall k :: 0 <= k < |schedule| ==> TurtleDispatch(schedule[k])
    ensures forall k :: 0 <= k < |schedule| - 1 ==> TurtleDispatch(schedule[1..][k])
  {
    forall k | 0 <= k < |schedule| - 1 ensures TurtleDispatch(schedule[1..][k]) {
      assert schedule[1..][k] == schedule[k + 1];
    }
  }

  /** For the periodic agent, over iterations that all reach its branch, the k-th action
      promise carries the full list exactly when the counter wraps to 0 on that tick (that is,
      when dutyCycle + k + 1 is a multiple of 13) and the silent list otherwise; the counter
      ends at dutyCycle + n modulo 13. */
  lemma TurtleCycle(dutyCycle: int, skipSleep: bool, schedule: seq<Iteration>)
    requires 0 <= dutyCycle <= SpeechThreshold
    requires forall k :: 0 <= k < |schedule| ==> TurtleDispatch(schedule[k])
    ensures var res := LoopRun(TurtleSpeak, dutyCycle, skipSleep, schedule);
            var sent := ActionPayloads(res.events);
            |sent| == |schedule|
            && (forall k :: 0 <= k < |schedule| ==> sent[k] == TurtleSends(dutyCycle, k, schedule[k]))
            && res.dutyCycle == (dutyCycle + |schedule|) % (SpeechThreshold + 1)
  {
    TurtleRunLength(dutyCycle, skipSleep, schedule);
    var sent := ActionPayloads(LoopRun(TurtleSpeak, dutyCycle, skipSleep, schedule).events);
    forall k | 0 <= k < |schedule| ensures sent[k] == TurtleSends(dutyCycle, k, schedule[k]) {
      TurtleSentAt(dutyCycle, skipSleep, schedule, k);
    }
  }

  /** The first tick of such a run: it sends what `TurtleSends` says and advances the counter
      by one modulo 13. */
  lemma TurtleFirst(dutyCycle: int, it: Iteration)
    requires 0 <= dutyCycle <= SpeechThreshold && TurtleDispatch(it)
    ensures var t := TickStep(TurtleSpeak, dutyCycle, it.replies);
            ActionPayloads(t.events) == [TurtleSends(dutyCycle, 0, it)]
            && t.dutyCycle == (dutyCycle + 1) % (SpeechThreshold + 1)
  {
    var r := it.replies;
    TurtleStep(r.prompt.value, dutyCycle, r.output.value.commands);
    DispatchOrder(TurtleSpeak, dutyCycle, r);
  }

  /** The k-th tick from counter dutyCycle is the (k-1)-th from the counter after one tick. */
  lemma TurtleSendsShift(dutyCycle: int, next: int, k: int, it: Iteration)
    requires 0 <= dutyCycle <= SpeechThreshold && next == (dutyCycle + 1) % (SpeechThreshold + 1)
    ensures TurtleSends(next, k - 1, it) == TurtleSends(dutyCycle, k, it)
  {
    if dutyCycle == SpeechThreshold {
      assert dutyCycle + k + 1 == (next + (k - 1) + 1) + (SpeechThreshold + 1);
    }
  }

  /** The counter after one tick, advanced by m more, is the first counter advanced by n = m + 1,
      modulo 13. */
  lemma ModShift(dutyCycle: int, next: int, m: int, n: int)
    requires 0 <= dutyCycle <= SpeechThreshold && next == (dutyCycle + 1) % (SpeechThreshold + 1)
    requires n == m + 1
    ensures (next + m) % (SpeechThreshold + 1) == (dutyCycle + n) % (SpeechThreshold + 1)
  {
    if dutyCycle == SpeechThreshold {
      assert dutyCycle + n == (next + m) + (SpeechThreshold + 1);
    }
  }

  lemma SmallMod(x: int)
    requires 0 <= x <= SpeechThreshold
    ensures x % (SpeechThreshold + 1) == x
  {
  }

  /** From a fresh counter, 13 consecutive ticks of the periodic agent that each reach its
      branch send the silent list 12 times and the full list on the 13th, and the counter
      ends at 0. */
  lemma ThirteenthTickSpeaks(skipSleep: bool, schedule: seq<Iteration>)
    requires |schedule| == SpeechThreshold + 1
    requires forall k :: 0 <= k < |schedule| ==> TurtleDispatch(schedule[k])
    ensures var res := LoopRun(TurtleSpeak, 0, skipSleep, schedule);
            var sent := ActionPayloads(res.events);
            |sent| == 13
            && (forall k :: 0 <= k < 12 ==> sent[k] == Silent(CommandsOf(schedule[k])))
            && sent[12] == CommandsOf(schedule[12])
            && res.dutyCycle == 0
  {
    TurtleRunLength(0, skipSleep, schedule);
    var sent := ActionPayloads(LoopRun(TurtleSpeak, 0, skipSleep, schedule).events);
    forall k | 0 <= k < 12 ensures sent[k] == Silent(CommandsOf(schedule[k])) {
      TurtleSentAt(0, skipSleep, schedule, k);
      SmallMod(k + 1);
    }
    TurtleSentAt(0, skipSleep, schedule, 12);
  }
}
