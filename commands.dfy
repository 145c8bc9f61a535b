/**
 * The commands an LLM output carries, and the "silent" selection of them that the
 * runtime hands to the action side when the agent must not speak.
 */
module Commands {

  /** One command of an LLM output: its `type` tag and its opaque payload. */
  datatype Command = Command(kind: string, value: string)

  /** An LLM output: its commands, in the order the model produced them. */
  datatype Output = Output(commands: seq<Command>)

  /** The tag of the commands that make the agent speak aloud. */
  const Speak: string := "speak"

  /** The commands whose tag is not `speak`, in their original order (built back to front,
      the way the runtime's loop appends them). */
  function Silent(cmds: seq<Command>): (r: seq<Command>)
    ensures |r| <= |cmds|
    ensures forall i :: 0 <= i < |r| ==> r[i].kind != Speak
  {
    if cmds == [] then []
    else
      var n := |cmds| - 1;
      Silent(cmds[..n]) + (if cmds[n].kind != Speak then [cmds[n]] else [])
  }

  /** The positions of the non-`speak` commands, in increasing order. */
  function KeptIndices(cmds: seq<Command>): (idx: seq<nat>)
    ensures |idx| <= |cmds|
  {
    if cmds == [] then []
    else
      var n := |cmds| - 1;
      KeptIndices(cmds[..n]) + (if cmds[n].kind != Speak then [n] else [])
  }

  /** The silent list is an order-preserving selection: its k-th element is the command at
      the k-th kept position, the kept positions strictly increase (nothing duplicated or
      reordered), and a position is kept exactly when its command is not `speak`. */
  lemma {:induction false} SilentIsOrderedSelection(cmds: seq<Command>)
    ensures |Silent(cmds)| == |KeptIndices(cmds)|
    ensures forall k :: 0 <= k < |KeptIndices(cmds)| ==>
              KeptIndices(cmds)[k] < |cmds| && Silent(cmds)[k] == cmds[KeptIndices(cmds)[k]]
    ensures forall k, l :: 0 <= k < l < |KeptIndices(cmds)| ==> KeptIndices(cmds)[k] < KeptIndices(cmds)[l]
    ensures forall i :: 0 <= i < |cmds| ==> (i in KeptIndices(cmds) <==> cmds[i].kind != Speak)
  {
    if cmds != [] {
      var n := |cmds| - 1;
      var pre := cmds[..n];
      SilentIsOrderedSelection(pre);
      assert forall i :: 0 <= i < n ==> pre[i] == cmds[i];
    }
  }

  /** A command is in the silent list exactly when it is one of the commands and is not `speak`. */
  lemma {:induction false} SilentMembership(cmds: seq<Command>, c: Command)
    ensures c in Silent(cmds) <==> c in cmds && c.kind != Speak
  {
    if cmds != [] {
      var n := |cmds| - 1;
      SilentMembership(cmds[..n], c);
      assert cmds == cmds[..n] + [cmds[n]];
    }
  }

  /** Filtering changes nothing exactly when no command is `speak`. */
  lemma {:induction false} SilentKeepsAllIffNoSpeech(cmds: seq<Command>)
    ensures Silent(cmds) == cmds <==> forall i :: 0 <= i < |cmds| ==> cmds[i].kind != Speak
  {
    if cmds != [] {
      var n := |cmds| - 1;
      SilentKeepsAllIffNoSpeech(cmds[..n]);
      assert cmds == cmds[..n] + [cmds[n]];
      if cmds[n].kind == Speak {
        assert |Silent(cmds)| <= n;
      }
    }
  }

  /** Filtering twice is filtering once. */
  lemma {:induction false} SilentIdempotent(cmds: seq<Command>)
    ensures Silent(Silent(cmds)) == Silent(cmds)
  {
    SilentIsOrderedSelection(cmds);
    var s := Silent(cmds);
    forall i | 0 <= i < |s| ensures s[i].kind != Speak {
      var idx := KeptIndices(cmds);
      assert idx[i] in idx;
    }
    SilentKeepsAllIffNoSpeech(s);
  }

  /** The loop of the runtime's tick that builds `commands_silent` by appending every
      command whose type is not `speak`. */
  method SilentCommands(cmds: seq<Command>) returns (silent: seq<Command>)
    ensures silent == Silent(cmds)
  {
    silent := [];
    for i := 0 to |cmds|
      invariant silent == Silent(cmds[..i])
    {
      assert cmds[..i + 1][..i] == cmds[..i];
      if cmds[i].kind != Speak {
        silent := silent + [cmds[i]];
      }
    }
    assert cmds[..|cmds|] == cmds;
  }
}
