/**
 * The per-tick choice of what the action side receives: the full command list or the
 * silent one, by a fixed precedence of checks on the prompt and the agent's name, with a
 * duty-cycle counter throttling the periodically speaking agent.
 */
module Gating {
  import opened Commands

  /** `sub` occurs in `s` starting at position `i`. */
  ghost predicate OccursAt(s: string, sub: string, i: int)
  {
    0 <= i && i + |sub| <= |s| && s[i..i + |sub|] == sub
  }

  /** Python's substring test `sub in s`. */
  function Contains(s: string, sub: string): (found: bool)
    ensures |sub| == 0 ==> found
    ensures found ==> |sub| <= |s|
    decreases |s|
  {
    if |sub| <= |s| && s[..|sub|] == sub then true
    else if s == [] then false
    else Contains(s[1..], sub)
  }

  /** `Contains` holds exactly when `sub` occurs somewhere in `s`. */
  lemma {:induction false} ContainsIff(s: string, sub: string)
    ensures Contains(s, sub) <==> exists i :: OccursAt(s, sub, i)
    decreases |s|
  {
    if |sub| <= |s| && s[..|sub|] == sub {
      assert OccursAt(s, sub, 0);
    } else if s != [] {
      ContainsIff(s[1..], sub);
      if exists i :: OccursAt(s, sub, i) {
        var i :| OccursAt(s, sub, i) && i > 0;
        assert s[1..][i - 1..i - 1 + |sub|] == s[i..i + |sub|];
        assert OccursAt(s[1..], sub, i - 1);
      }
      if exists j :: OccursAt(s[1..], sub, j) {
        var j :| OccursAt(s[1..], sub, j);
        assert s[1..][j..j + |sub|] == s[j + 1..j + 1 + |sub|];
        assert OccursAt(s, sub, j + 1);
      }
    }
  }

  /** The marker of a live voice input in the fused prompt. */
  const VoiceInput: string := "Voice INPUT"
  /** The marker of a payment (Coinbase wallet) input in the fused prompt. */
  const WalletCoinbase: string := "WalletCoinbase"
  /** The agent that always speaks. */
  const SpotSpeak: string := "spot_speak"
  /** The agent that speaks only every so often. */
  const TurtleSpeak: string := "turtle_speak"
  /** The duty-cycle threshold: the periodic agent speaks once the counter exceeds it. */
  const SpeechThreshold: int := 12

  /** The prompt reports a voice or a payment input this tick. */
  predicate Urgent(prompt: string)
  {
    Contains(prompt, VoiceInput) || Contains(prompt, WalletCoinbase)
  }

  /** What the action side receives this tick, and the duty-cycle counter afterwards. */
  datatype Decision = Decision(sent: seq<Command>, dutyCycle: int)

  /** The branches of the tick's action dispatch, in their order of precedence. */
  function Gate(prompt: string, name: string, dutyCycle: int, cmds: seq<Command>): (d: Decision)
    ensures d.sent == cmds || d.sent == Silent(cmds)
    ensures d.dutyCycle == dutyCycle || d.dutyCycle == dutyCycle + 1 || d.dutyCycle == 0
  {
    if Urgent(prompt) then Decision(cmds, dutyCycle)
    else if name == SpotSpeak then Decision(cmds, dutyCycle)
    else if name == TurtleSpeak then
      var next := dutyCycle + 1;
      if next > SpeechThreshold then Decision(cmds, 0) else Decision(Silent(cmds), next)
    else Decision(Silent(cmds), dutyCycle)
  }

  /** A prompt with a voice or payment input sends the full list and leaves the counter
      alone, whatever the agent's name, the periodic agent included. */
  lemma UrgentSendsFull(prompt: string, name: string, dutyCycle: int, cmds: seq<Command>)
    requires exists i :: OccursAt(prompt, VoiceInput, i) || OccursAt(prompt, WalletCoinbase, i)
    ensures Gate(prompt, name, dutyCycle, cmds) == Decision(cmds, dutyCycle)
  {
    ContainsIff(prompt, VoiceInput);
    ContainsIff(prompt, WalletCoinbase);
  }

  /** Without an urgent input, the always-speaking agent gets the full list. */
  lemma SpotSpeakSendsFull(prompt: string, dutyCycle: int, cmds: seq<Command>)
    requires !Urgent(prompt)
    ensures Gate(prompt, SpotSpeak, dutyCycle, cmds) == Decision(cmds, dutyCycle)
  {
  }

  /** Without an urgent input, any agent other than the two speaking ones gets the silent
      list, and its counter does not move. */
  lemma OtherAgentsStaySilent(prompt: string, name: string, dutyCycle: int, cmds: seq<Command>)
    requires !Urgent(prompt) && name != SpotSpeak && name != TurtleSpeak
    ensures Gate(prompt, name, dutyCycle, cmds) == Decision(Silent(cmds), dutyCycle)
  {
  }

  /** A full-list branch is taken exactly when the prompt is urgent, or the agent always
      speaks, or the agent is the periodic one and its incremented counter exceeds the
      threshold; otherwise the silent list is sent (which equals the full list when no command
      is `speak`). */
  lemma FullExactlyWhen(prompt: string, name: string, dutyCycle: int, cmds: seq<Command>)
    ensures var full := Urgent(prompt) || name == SpotSpeak
                        || (name == TurtleSpeak && dutyCycle + 1 > SpeechThreshold);
            (full ==> Gate(prompt, name, dutyCycle, cmds).sent == cmds)
            && (!full ==> Gate(prompt, name, dutyCycle, cmds).sent == Silent(cmds))
  {
  }

  /** The counter changes only in the periodic agent's branch, when no urgent input came. */
  lemma CounterMovesOnlyForTurtle(prompt: string, name: string, dutyCycle: int, cmds: seq<Command>)
    ensures Gate(prompt, name, dutyCycle, cmds).dutyCycle != dutyCycle ==>
              name == TurtleSpeak && !Urgent(prompt)
  {
  }

  /** The counter stays within 0..12 from one tick to the next, and in the periodic branch it
      advances by one modulo 13, the full list going out exactly on the wrap to 0. */
  lemma {:induction false} TurtleStep(prompt: string, dutyCycle: int, cmds: seq<Command>)
    requires 0 <= dutyCycle <= SpeechThreshold && !Urgent(prompt)
    ensures var d := Gate(prompt, TurtleSpeak, dutyCycle, cmds);
            d.dutyCycle == (dutyCycle + 1) % (SpeechThreshold + 1)
            && (d.dutyCycle == 0 ==> d.sent == cmds)
            && (d.dutyCycle != 0 ==> d.sent == Silent(cmds))
  {
  }

  /** Whatever the branch, a counter within 0..12 stays within 0..12. */
  lemma CounterStaysInRange(prompt: string, name: string, dutyCycle: int, cmds: seq<Command>)
    requires 0 <= dutyCycle <= SpeechThreshold
    ensures 0 <= Gate(prompt, name, dutyCycle, cmds).dutyCycle <= SpeechThreshold
  {
  }
}
