/**
 * The record of the calls the runtime makes to its collaborators, and the views of that
 * record by kind of call that the properties of a tick and of the loop are stated in.
 */
module Trace {
  import opened Commands

  /** A finished action result handed back by the action orchestrator (opaque here). */
  type PromiseResult = string

  /** One call from the runtime to a collaborator. */
  datatype Event =
    | Flush                                   // action orchestrator: flush finished promises
    | Fuse(finished: seq<PromiseResult>)      // fuser: build a prompt from inputs and results
    | Ask(prompt: string)                     // LLM: ask for an output
    | SimulatorPromise(commands: seq<Command>) // simulator orchestrator: promise commands
    | ActionPromise(commands: seq<Command>)   // action orchestrator: promise commands
    | Sleep                                   // sleep ticker: wait for the next period
  {
    function Kind(): CallKind
    {
      match this
      case Flush => FlushCall
      case Fuse(_) => FuseCall
      case Ask(_) => AskCall
      case SimulatorPromise(_) => SimulatorCall
      case ActionPromise(_) => ActionCall
      case Sleep => SleepCall
    }
  }

  /** The collaborator call an event stands for, without its arguments. */
  datatype CallKind = FlushCall | FuseCall | AskCall | SimulatorCall | ActionCall | SleepCall

  /** The number of calls of kind `k`. */
  function Count(es: seq<Event>, k: CallKind): (n: nat)
    ensures n <= |es|
  {
    if |es| == 0 then 0
    else Ind(es[0], k) + Count(es[1..], k)
  }

  /** 1 if the call `e` is of kind `k`, 0 otherwise. */
  function Ind(e: Event, k: CallKind): (n: nat)
    ensures n <= 1
  {
    if e.Kind() == k then 1 else 0
  }

  /** The commands of every action-orchestrator promise call, in order. */
  function ActionPayloads(es: seq<Event>): (payloads: seq<seq<Command>>)
  {
    if |es| == 0 then []
    else (if es[0].ActionPromise? then [es[0].commands] else []) + ActionPayloads(es[1..])
  }

  lemma {:induction false} CountAppend(a: seq<Event>, b: seq<Event>, k: CallKind)
    ensures Count(a + b, k) == Count(a, k) + Count(b, k)
  {
    if |a| > 0 {
      assert (a + b)[1..] == a[1..] + b;
      CountAppend(a[1..], b, k);
    } else {
      assert a + b == b;
    }
  }

  /** Counting over one call followed by others. */
  lemma CountCons(e: Event, es: seq<Event>, k: CallKind)
    ensures Count([e] + es, k) == Ind(e, k) + Count(es, k)
  {
    assert ([e] + es)[1..] == es;
  }

  lemma {:induction false} ActionPayloadsAppend(a: seq<Event>, b: seq<Event>)
    ensures ActionPayloads(a + b) == ActionPayloads(a) + ActionPayloads(b)
  {
    if |a| > 0 {
      assert (a + b)[1..] == a[1..] + b;
      ActionPayloadsAppend(a[1..], b);
    } else {
      assert a + b == b;
    }
  }

  /** Regrouping a concatenation of four traces. */
  lemma AppendRegroup(a: seq<Event>, p: seq<Event>, t: seq<Event>, r: seq<Event>)
    ensures a + (p + t + r) == a + p + t + r
  {
  }
}
