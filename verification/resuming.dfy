/** The loop as its permission gate evidently means it to work.

    As written, a gated command that finds the slot empty waits for an answer
    that only the waiting loop could deliver (see
    Dispatch.GatedCommandNeedsPrefilledSlot). Here the wait is resolved by
    the next permission_result in the stream instead; the lines that arrive
    meanwhile are held back and dispatched after the answer, in arrival
    order. Everything else is Dispatch.Step unchanged. */
module Resuming {
  import opened Wrappers
  import opened Api
  import opened Dispatch

  /** The position of the first permission_result in `ms`, if any */
  function FirstResult(ms: seq<Inbound>): (r: Option<nat>)
    ensures r.Some? ==> r.value < |ms| && ms[r.value].PermResult?
    ensures r.Some? ==> forall i :: 0 <= i < r.value ==> !ms[i].PermResult?
    ensures r.None? ==> forall i :: 0 <= i < |ms| ==> !ms[i].PermResult?
    decreases |ms|
  {
    if |ms| == 0 then None
    else if ms[0].PermResult? then Some(0)
    else match FirstResult(ms[1..])
      case None => None
      case Some(k) => Some(k + 1)
  }

  /** The corrected loop. A command left waiting at the end of the input is
      never decided, and the state stays Stuck(AwaitingPermission). */
  function Run(s: Script, h: Handler, st: Loop, ms: seq<Inbound>): Transition
    decreases |ms|
  {
    if |ms| == 0 then Transition(st, [])
    else
      var t := Step(s, h, st, ms[0]);
      if st.status == Running && t.next.status == Stuck(AwaitingPermission) && ms[0].Command? then
        match FirstResult(ms[1..])
        case None => t
        case Some(k) =>
          var answer := ms[1 + k].hasPermission;
          var later := ms[1..1 + k] + ms[2 + k..];
          var u := Run(s, h, Initial, later);
          Transition(u.next, t.trace + Decide(s, h, C(ms[0].player, ms[0].args), answer) + u.trace)
      else
        var u := Run(s, h, t.next, ms[1..]);
        Transition(u.next, t.trace + u.trace)
  }

  /** The host's answer to a check decides that command: after the check
      comes the denial line or the handler call, and then every line that
      arrived while waiting, in order, none lost */
  lemma ReplyDecidesCommand(s: Script, h: Handler, player: string, args: seq<string>,
                            held: seq<Inbound>, answer: bool, rest: seq<Inbound>)
    requires s.perm != ""
    requires forall i :: 0 <= i < |held| ==> !held[i].PermResult?
    ensures var r := Run(s, h, Initial, [Command(s.name, player, args)] + held + [PermResult(answer)] + rest);
            var u := Run(s, h, Initial, held + rest);
            r == Transition(u.next, [Sent(CheckPermission(s, player))] + Decide(s, h, C(player, args), answer) + u.trace)
  {
    var ms := [Command(s.name, player, args)] + held + [PermResult(answer)] + rest;
    var tail := ms[1..];
    assert tail == held + [PermResult(answer)] + rest;
    assert tail[|held|] == PermResult(answer);
    assert forall i :: 0 <= i < |held| ==> tail[i] == held[i];
    assert FirstResult(tail) == Some(|held|);
    assert ms[1..1 + |held|] == held;
    assert ms[2 + |held|..] == rest;
  }

  /** A loop left waiting at the end of an earlier stream stays as it is:
      only the line right after a check can open a wait that an answer closes */
  lemma {:induction false} StuckStaysStuck(s: Script, h: Handler, st: Loop, ms: seq<Inbound>)
    requires st.status.Stuck?
    ensures Run(s, h, st, ms) == Transition(st, [])
    decreases |ms|
  {
    if |ms| > 0 {
      StuckStaysStuck(s, h, st, ms[1..]);
    }
  }

  /** Wherever the loop as written does not wait forever for an answer, the
      corrected loop does exactly what it does */
  lemma {:induction false} AgreesUnlessWaiting(s: Script, h: Handler, st: Loop, ms: seq<Inbound>)
    requires Dispatch.Run(s, h, st, ms).next.status != Stuck(AwaitingPermission)
    ensures Run(s, h, st, ms) == Dispatch.Run(s, h, st, ms)
    decreases |ms|
  {
    if |ms| > 0 {
      RunStep(s, h, st, ms);
      var t := Step(s, h, st, ms[0]);
      StuckIsTerminal(s, h, t.next, ms[1..]);
      if t.next.status != Stuck(AwaitingPermission) {
        AgreesUnlessWaiting(s, h, t.next, ms[1..]);
      }
    }
  }
}
