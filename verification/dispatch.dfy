/** MainLoop (api.go:77-109) as a pure transition over classified inbound
    lines.

    Everything runs on one goroutine: the handler is called synchronously and
    HasPermission receives from the slot that only the loop itself fills. So
    one line determines one transition. The two receives and sends on the
    one-slot channel that can never complete become the terminal state
    `Stuck`: the loop neither reads nor writes anything after them. */
module Dispatch {
  import opened Wrappers
  import opened Json
  import opened Api

  /** Why the loop can no longer make progress */
  datatype Block =
    | AwaitingPermission  // HasPermission received from an empty slot
    | SlotOccupied        // a permission_result was sent to a full slot

  datatype Status = Running | Stuck(on: Block)

  /** The loop's state: the one-slot permission buffer (api.go:40) */
  datatype Loop = Loop(slot: Option<bool>, status: Status)

  /** What one line causes, in order: lines written to the host, handler
      calls, and errors handed to the logger */
  datatype Event = Sent(envelope: Json) | Invoked(ctx: C) | Logged(err: string)

  datatype Transition = Transition(next: Loop, trace: seq<Event>)

  /** The loop before any line: an empty slot */
  const Initial: Loop := Loop(None, Running)

  /** Lines that leave the loop exactly as they found it */
  predicate Inert(s: Script, m: Inbound) {
    m.Malformed? || m.Other? || (m.Command? && m.name != s.name)
  }

  // ---------------------------------------------------------------------
  // Views of a trace
  // ---------------------------------------------------------------------

  /** The lines written to the host, in order */
  function Sends(tr: seq<Event>): (r: seq<Json>)
    ensures |r| <= |tr|
  {
    if |tr| == 0 then []
    else (if tr[0].Sent? then [tr[0].envelope] else []) + Sends(tr[1..])
  }

  /** The handler calls, in order */
  function Invocations(tr: seq<Event>): (r: seq<C>)
    ensures |r| <= |tr|
  {
    if |tr| == 0 then []
    else (if tr[0].Invoked? then [tr[0].ctx] else []) + Invocations(tr[1..])
  }

  /** How many check_permission requests were written */
  function Checks(tr: seq<Event>): nat {
    if |tr| == 0 then 0
    else (if tr[0].Sent? && PermissionQuery(tr[0].envelope).Some? then 1 else 0) + Checks(tr[1..])
  }

  /** The handler contexts a script is owed by the command lines of `ms` */
  function MatchingCalls(s: Script, ms: seq<Inbound>): seq<C> {
    if |ms| == 0 then []
    else (if ms[0].Command? && ms[0].name == s.name then [C(ms[0].player, ms[0].args)] else [])
         + MatchingCalls(s, ms[1..])
  }

  /** How many permission_result lines `ms` holds */
  function Results(ms: seq<Inbound>): nat {
    if |ms| == 0 then 0 else (if ms[0].PermResult? then 1 else 0) + Results(ms[1..])
  }

  function Occupancy(slot: Option<bool>): nat {
    if slot.Some? then 1 else 0
  }

  lemma {:induction false} SendsAppend(a: seq<Event>, b: seq<Event>)
    ensures Sends(a + b) == Sends(a) + Sends(b)
  {
    if |a| > 0 {
      assert (a + b)[1..] == a[1..] + b;
      SendsAppend(a[1..], b);
    } else {
      assert a + b == b;
    }
  }

  lemma {:induction false} InvocationsAppend(a: seq<Event>, b: seq<Event>)
    ensures Invocations(a + b) == Invocations(a) + Invocations(b)
  {
    if |a| > 0 {
      assert (a + b)[1..] == a[1..] + b;
      InvocationsAppend(a[1..], b);
    } else {
      assert a + b == b;
    }
  }

  lemma {:induction false} ChecksAppend(a: seq<Event>, b: seq<Event>)
    ensures Checks(a + b) == Checks(a) + Checks(b)
  {
    if |a| > 0 {
      assert (a + b)[1..] == a[1..] + b;
      ChecksAppend(a[1..], b);
    } else {
      assert a + b == b;
    }
  }

  // ---------------------------------------------------------------------
  // One line, and the loop over all lines
  // ---------------------------------------------------------------------

  /** The handler call and, when it returns an error, the log line
      (api.go:98-100) */
  function Invoke(h: Handler, c: C): seq<Event> {
    [Invoked(c)] + match h(c) { case Success => [] case Failure(e) => [Logged(e)] }
  }

  /** A handler call is one call and writes nothing, whatever it returns */
  lemma InvokeViews(h: Handler, c: C)
    ensures |Invoke(h, c)| >= 1 && Invoke(h, c)[0] == Invoked(c)
    ensures Sends(Invoke(h, c)) == [] && Invocations(Invoke(h, c)) == [c] && Checks(Invoke(h, c)) == 0
  {
    var tail := Invoke(h, c);
    if h(c).Failure? {
      assert tail == [Invoked(c), Logged(h(c).err)];
      assert tail[1..] == [Logged(h(c).err)];
      assert tail[1..][1..] == [];
      assert Checks(tail[1..]) == 0;
    } else {
      assert tail[1..] == [];
    }
  }

  /** What follows a permission answer (api.go:94-100): the denial line to
      the player, or the handler call */
  function Decide(s: Script, h: Handler, c: C, granted: bool): seq<Event> {
    if granted then Invoke(h, c) else [Sent(SendMessage(s, c.player, NoPermission))]
  }

  /** One iteration of the loop body for one inbound line */
  function Step(s: Script, h: Handler, st: Loop, m: Inbound): Transition {
    if st.status.Stuck? then Transition(st, [])
    else match m
      case Malformed => Transition(st, [])
      case Other(_) => Transition(st, [])
      case Command(name, player, args) =>
        if name != s.name then Transition(st, [])
        else if s.perm == "" then Transition(st, Invoke(h, C(player, args)))
        else
          var ask := HasPermission(s, player, st.slot);
          var asked := [Sent(ask.request)];
          (match ask.answer
           case None => Transition(Loop(None, Stuck(AwaitingPermission)), asked)
           case Some(granted) => Transition(Loop(None, Running), asked + Decide(s, h, C(player, args), granted)))
      case PermResult(b) =>
        if st.slot.None? then Transition(Loop(Some(b), Running), [])
        else Transition(Loop(st.slot, Stuck(SlotOccupied)), [])
  }

  /** `step` applied to the lines of a stream in arrival order, until the
      stream ends */
  function Fold(step: (Loop, Inbound) -> Transition, st: Loop, ms: seq<Inbound>): Transition
    decreases |ms|
  {
    if |ms| == 0 then Transition(st, [])
    else
      var t := step(st, ms[0]);
      var u := Fold(step, t.next, ms[1..]);
      Transition(u.next, t.trace + u.trace)
  }

  /** Folding a stream in two pieces is folding it whole: the loop carries
      nothing from line to line but its state */
  lemma {:induction false} FoldAppend(step: (Loop, Inbound) -> Transition, st: Loop, a: seq<Inbound>, b: seq<Inbound>)
    ensures var t := Fold(step, st, a);
            var u := Fold(step, t.next, b);
            Fold(step, st, a + b) == Transition(u.next, t.trace + u.trace)
    decreases |a|
  {
    if |a| == 0 {
      assert a + b == b;
    } else {
      assert (a + b)[0] == a[0];
      assert (a + b)[1..] == a[1..] + b;
      var t0 := step(st, a[0]);
      FoldAppend(step, t0.next, a[1..], b);
      var t1 := Fold(step, t0.next, a[1..]);
      var u := Fold(step, t1.next, b);
      assert t0.trace + (t1.trace + u.trace) == (t0.trace + t1.trace) + u.trace;
    }
  }

  /** The script's step as a transition function */
  function StepOf(s: Script, h: Handler): (Loop, Inbound) -> Transition {
    (st: Loop, m: Inbound) => Step(s, h, st, m)
  }

  /** MainLoop (api.go:77-109) over the lines of its input */
  function Run(s: Script, h: Handler, st: Loop, ms: seq<Inbound>): Transition {
    Fold(StepOf(s, h), st, ms)
  }

  /** The first line is dispatched, then the loop goes on with the rest */
  lemma RunStep(s: Script, h: Handler, st: Loop, ms: seq<Inbound>)
    requires |ms| > 0
    ensures var t := Step(s, h, st, ms[0]);
            var u := Run(s, h, t.next, ms[1..]);
            Run(s, h, st, ms) == Transition(u.next, t.trace + u.trace)
  {
  }

  lemma RunAppend(s: Script, h: Handler, st: Loop, a: seq<Inbound>, b: seq<Inbound>)
    ensures var t := Run(s, h, st, a);
            var u := Run(s, h, t.next, b);
            Run(s, h, st, a + b) == Transition(u.next, t.trace + u.trace)
  {
    FoldAppend(StepOf(s, h), st, a, b);
  }

  /** Once stuck, the loop writes and calls nothing more; so a loop still
      running at the end was running throughout */
  lemma {:induction false} StuckIsTerminal(s: Script, h: Handler, st: Loop, ms: seq<Inbound>)
    ensures st.status.Stuck? ==> Run(s, h, st, ms) == Transition(st, [])
    ensures Run(s, h, st, ms).next.status == Running ==> st.status == Running
    decreases |ms|
  {
    if |ms| > 0 {
      RunStep(s, h, st, ms);
      StuckIsTerminal(s, h, Step(s, h, st, ms[0]).next, ms[1..]);
    }
  }

  // ---------------------------------------------------------------------
  // Routing rules for one line
  // ---------------------------------------------------------------------

  /** A line that lies between others and is skipped changes nothing for
      the lines around it */
  lemma InertLineSkipped(s: Script, h: Handler, st: Loop, a: seq<Inbound>, m: Inbound, b: seq<Inbound>)
    requires Inert(s, m)
    ensures Run(s, h, st, a + [m] + b) == Run(s, h, st, a + b)
  {
    RunAppend(s, h, st, a, [m] + b);
    RunAppend(s, h, st, a, b);
    assert a + [m] + b == a + ([m] + b);
    var t := Run(s, h, st, a);
    RunStep(s, h, t.next, [m] + b);
    assert ([m] + b)[1..] == b;
  }

  /** A line that fails to decode writes nothing, calls nothing, leaves the
      slot alone, and the next line is read as if it had not been there */
  lemma MalformedLineSkipped(s: Script, h: Handler, st: Loop, a: seq<Inbound>, b: seq<Inbound>)
    ensures Step(s, h, st, Malformed) == Transition(st, [])
    ensures Run(s, h, st, a + [Malformed] + b) == Run(s, h, st, a + b)
  {
    InertLineSkipped(s, h, st, a, Malformed, b);
  }

  /** A message of any type other than command and permission_result has no
      effect at all */
  lemma OtherTypeIgnored(s: Script, h: Handler, st: Loop, tag: string, a: seq<Inbound>, b: seq<Inbound>)
    ensures Step(s, h, st, Other(tag)) == Transition(st, [])
    ensures Run(s, h, st, a + [Other(tag)] + b) == Run(s, h, st, a + b)
  {
    InertLineSkipped(s, h, st, a, Other(tag), b);
  }

  /** A line whose decoded type is neither `command` nor `permission_result`
      is routed to Other, and wherever it sits in a stream it changes nothing */
  lemma UnhandledTypeIgnored(s: Script, h: Handler, st: Loop, typ: string, name: string, player: string,
                             args: seq<string>, hasPermission: bool, a: seq<Inbound>, b: seq<Inbound>)
    requires typ != "command" && typ != "permission_result"
    ensures Step(s, h, st, Route(typ, name, player, args, hasPermission)) == Transition(st, [])
    ensures var m := Route(typ, name, player, args, hasPermission);
            Run(s, h, st, a + [m] + b) == Run(s, h, st, a + b)
  {
    InertLineSkipped(s, h, st, a, Route(typ, name, player, args, hasPermission), b);
  }

  /** A command for another script's name: no output, no handler call, the
      slot untouched */
  lemma ForeignCommandIgnored(s: Script, h: Handler, st: Loop, name: string, player: string, args: seq<string>,
                              a: seq<Inbound>, b: seq<Inbound>)
    requires name != s.name
    ensures Step(s, h, st, Command(name, player, args)) == Transition(st, [])
    ensures Run(s, h, st, a + [Command(name, player, args)] + b) == Run(s, h, st, a + b)
  {
    InertLineSkipped(s, h, st, a, Command(name, player, args), b);
  }

  /** Without a permission: exactly one handler call with the given player
      and arguments, no line to the host, the slot untouched */
  lemma UngatedCommandRunsHandler(s: Script, h: Handler, st: Loop, player: string, args: seq<string>)
    requires s.perm == "" && st.status == Running
    ensures var t := Step(s, h, st, Command(s.name, player, args));
            && Invocations(t.trace) == [C(player, args)]
            && Sends(t.trace) == []
            && t.next == st
  {
  }

  /** With a permission: exactly one check_permission line carrying
      (player, Perm, OpBypass), written first, after which the slot is empty;
      the loop is stuck exactly when the slot was empty */
  lemma GatedCommandAsksOnce(s: Script, h: Handler, st: Loop, player: string, args: seq<string>)
    requires s.perm != "" && st.status == Running
    ensures var t := Step(s, h, st, Command(s.name, player, args));
            && |Sends(t.trace)| >= 1
            && PermissionQuery(Sends(t.trace)[0]) == Some(PermReq(player, s.perm, s.opBypass))
            && Checks(t.trace) == 1
            && t.next.slot == None
            && (t.next.status.Stuck? <==> st.slot == None)
            && (st.slot == None ==> Invocations(t.trace) == [] && |t.trace| == 1)
  {
    var t := Step(s, h, st, Command(s.name, player, args));
    var q := CheckPermission(s, player);
    match st.slot
    case None =>
    case Some(granted) =>
      if granted {
        var tail := Invoke(h, C(player, args));
        ChecksAppend([Sent(q)], tail);
        SendsAppend([Sent(q)], tail);
        InvokeViews(h, C(player, args));
      } else {
        var msg := SendMessage(s, player, NoPermission);
        ChecksAppend([Sent(q)], [Sent(msg)]);
        SendsAppend([Sent(q)], [Sent(msg)]);
      }
  }

  /** A false answer: the check, then exactly one send_message to the player
      with the denial text, and no handler call */
  lemma DeniedCommandTellsPlayer(s: Script, h: Handler, player: string, args: seq<string>)
    requires s.perm != ""
    ensures var t := Step(s, h, Loop(Some(false), Running), Command(s.name, player, args));
            && Sends(t.trace) == [CheckPermission(s, player), SendMessage(s, player, NoPermission)]
            && PlayerMessage(Sends(t.trace)[1]) == Some(Chat(player, Styled(s.prefix, NoPermission)))
            && Invocations(t.trace) == []
            && t.next == Initial
  {
  }

  /** A true answer: the check, then exactly one handler call */
  lemma GrantedCommandRunsHandler(s: Script, h: Handler, player: string, args: seq<string>)
    requires s.perm != ""
    ensures var t := Step(s, h, Loop(Some(true), Running), Command(s.name, player, args));
            && Sends(t.trace) == [CheckPermission(s, player)]
            && Invocations(t.trace) == [C(player, args)]
            && t.next == Initial
  {
    var t := Step(s, h, Loop(Some(true), Running), Command(s.name, player, args));
    var tail := Invoke(h, C(player, args));
    InvokeViews(h, C(player, args));
    SendsAppend([Sent(CheckPermission(s, player))], tail);
    InvocationsAppend([Sent(CheckPermission(s, player))], tail);
  }

  /** A handler error is only logged: nothing is written for it and the loop
      keeps running, so the next line is still read */
  lemma HandlerErrorOnlyLogged(s: Script, h: Handler, st: Loop, player: string, args: seq<string>)
    requires st.status == Running && (s.perm == "" || st.slot != Some(false))
    requires h(C(player, args)).Failure?
    ensures var t := Step(s, h, st, Command(s.name, player, args));
            (s.perm == "" || st.slot == Some(true)) ==> t.next.status == Running
    ensures var t := Step(s, h, st, Command(s.name, player, args));
            t.next.status == Running ==> t.trace[|t.trace| - 1] == Logged(h(C(player, args)).err)
    ensures var t := Step(s, h, st, Command(s.name, player, args));
            Sends(t.trace) == (if s.perm == "" then [] else [CheckPermission(s, player)])
  {
    var c := C(player, args);
    var t := Step(s, h, st, Command(s.name, player, args));
    var tail := Invoke(h, c);
    assert tail == [Invoked(c), Logged(h(c).err)];
    InvokeViews(h, c);
    if s.perm != "" && st.slot == Some(true) {
      SendsAppend([Sent(CheckPermission(s, player))], tail);
    }
  }

  /** A permission_result fills an empty slot with has_permission; one that
      meets a full slot leaves the loop stuck. Either way nothing is written */
  lemma PermResultFillsSlot(s: Script, h: Handler, st: Loop, b: bool)
    requires st.status == Running
    ensures var t := Step(s, h, st, PermResult(b));
            && t.trace == []
            && (st.slot == None <==> t.next == Loop(Some(b), Running))
            && (st.slot != None <==> t.next.status == Stuck(SlotOccupied))
  {
  }

  /** A command line without decodable `command`, `player` and `args`
      fields leaves their zero values, and those match the script New
      returns, every field at its zero value (so no permission either): its
      handler runs for an empty player with no arguments. This is the
      instance of UngatedCommandRunsHandler for New and the zero fields. */
  lemma UndecodedCommandReachesNewScript(h: Handler, st: Loop)
    requires st.status == Running
    ensures Invocations(Step(New, h, st, Command("", "", [])).trace) == [C("", [])]
    ensures Sends(Step(New, h, st, Command("", "", [])).trace) == []
  {
  }

  // ---------------------------------------------------------------------
  // Properties of whole runs
  // ---------------------------------------------------------------------

  /** Without a permission nothing is ever written. Over any run that does
      not block, the handler is called exactly once per command line naming
      the script, with that line's player and arguments, in order: answers
      that arrive only fill the slot, which the ungated path never reads.
      With no permission_result in the stream the loop state is unchanged */
  lemma {:induction false} UngatedInvokesEachMatchingCommand(s: Script, h: Handler, st: Loop, ms: seq<Inbound>)
    requires s.perm == "" && st.status == Running
    ensures var r := Run(s, h, st, ms);
            Sends(r.trace) == []
    ensures var r := Run(s, h, st, ms);
            r.next.status == Running ==> Invocations(r.trace) == MatchingCalls(s, ms)
    ensures Results(ms) == 0 ==> Run(s, h, st, ms).next == st
    decreases |ms|
  {
    if |ms| > 0 {
      RunStep(s, h, st, ms);
      var t := Step(s, h, st, ms[0]);
      if ms[0].Command? && ms[0].name == s.name {
        UngatedCommandRunsHandler(s, h, st, ms[0].player, ms[0].args);
      }
      var u := Run(s, h, t.next, ms[1..]);
      if t.next.status == Running {
        UngatedInvokesEachMatchingCommand(s, h, t.next, ms[1..]);
      } else {
        StuckIsTerminal(s, h, t.next, ms[1..]);
      }
      InvocationsAppend(t.trace, u.trace);
      SendsAppend(t.trace, u.trace);
    }
  }

  /** Every handler call in `tr` comes straight after the check_permission
      line for the same player */
  ghost predicate ChecksPrecede(s: Script, tr: seq<Event>) {
    forall i :: 0 <= i < |tr| && tr[i].Invoked? ==>
      i > 0 && tr[i - 1] == Sent(CheckPermission(s, tr[i].ctx.player))
  }

  lemma ChecksPrecedeAppend(s: Script, a: seq<Event>, b: seq<Event>)
    requires ChecksPrecede(s, a) && ChecksPrecede(s, b)
    ensures ChecksPrecede(s, a + b)
  {
  }

  lemma GatedStepChecksPrecede(s: Script, h: Handler, st: Loop, m: Inbound)
    requires s.perm != ""
    ensures ChecksPrecede(s, Step(s, h, st, m).trace)
  {
  }

  /** With a permission, every handler call comes straight after the
      check_permission line for the same player: the gate is never skipped */
  lemma {:induction false} GatedInvocationsFollowChecks(s: Script, h: Handler, st: Loop, ms: seq<Inbound>)
    requires s.perm != ""
    ensures ChecksPrecede(s, Run(s, h, st, ms).trace)
    decreases |ms|
  {
    if |ms| > 0 {
      RunStep(s, h, st, ms);
      var t := Step(s, h, st, ms[0]);
      GatedInvocationsFollowChecks(s, h, t.next, ms[1..]);
      var u := Run(s, h, t.next, ms[1..]);
      GatedStepChecksPrecede(s, h, st, ms[0]);
      ChecksPrecedeAppend(s, t.trace, u.trace);
    }
  }

  /** Every permission answer the loop accepts is consumed by exactly one
      check: over a run that does not get stuck, answers received plus the
      one already buffered equal checks written plus the one still buffered */
  lemma {:induction false} EveryAnswerConsumedOnce(s: Script, h: Handler, st: Loop, ms: seq<Inbound>)
    requires Run(s, h, st, ms).next.status == Running
    ensures var r := Run(s, h, st, ms);
            Results(ms) + Occupancy(st.slot) == Checks(r.trace) + Occupancy(r.next.slot)
    decreases |ms|
  {
    StuckIsTerminal(s, h, st, ms);
    if |ms| > 0 {
      RunStep(s, h, st, ms);
      var t := Step(s, h, st, ms[0]);
      StuckIsTerminal(s, h, t.next, ms[1..]);
      assert t.next.status == Running;
      EveryAnswerConsumedOnce(s, h, t.next, ms[1..]);
      var u := Run(s, h, t.next, ms[1..]);
      ChecksAppend(t.trace, u.trace);
      assert Checks(t.trace) + Occupancy(t.next.slot) == (if ms[0].PermResult? then 1 else 0) + Occupancy(st.slot) by {
        if ms[0].Command? && ms[0].name == s.name {
          if s.perm == "" {
            InvokeViews(h, C(ms[0].player, ms[0].args));
          } else {
            GatedCommandAsksOnce(s, h, st, ms[0].player, ms[0].args);
          }
        }
      }
    }
  }

  /** The reply to a check can never be read: when a gated command finds the
      slot empty, the loop writes its check and stops there, whatever lines
      follow, the host's reply among them */
  lemma GatedCommandNeedsPrefilledSlot(s: Script, h: Handler, player: string, args: seq<string>, rest: seq<Inbound>)
    requires s.perm != ""
    ensures Run(s, h, Initial, [Command(s.name, player, args)] + rest)
            == Transition(Loop(None, Stuck(AwaitingPermission)), [Sent(CheckPermission(s, player))])
    ensures Invocations(Run(s, h, Initial, [Command(s.name, player, args), PermResult(true)] + rest).trace) == []
  {
    var waiting := Loop(None, Stuck(AwaitingPermission));
    var ms := [Command(s.name, player, args)] + rest;
    assert ms[1..] == rest;
    RunStep(s, h, Initial, ms);
    StuckIsTerminal(s, h, waiting, rest);
    var ms2 := [Command(s.name, player, args), PermResult(true)] + rest;
    assert ms2[1..] == [PermResult(true)] + rest;
    RunStep(s, h, Initial, ms2);
    StuckIsTerminal(s, h, waiting, ms2[1..]);
  }

  /** Which handler ran and whether it failed never steers the loop: two
      handlers yield the same states and the same lines to the host */
  lemma {:induction false} HandlerResultDoesNotSteer(s: Script, h1: Handler, h2: Handler, st: Loop, ms: seq<Inbound>)
    ensures Run(s, h1, st, ms).next == Run(s, h2, st, ms).next
    ensures Sends(Run(s, h1, st, ms).trace) == Sends(Run(s, h2, st, ms).trace)
    ensures Invocations(Run(s, h1, st, ms).trace) == Invocations(Run(s, h2, st, ms).trace)
    decreases |ms|
  {
    if |ms| > 0 {
      RunStep(s, h1, st, ms);
      RunStep(s, h2, st, ms);
      var t1 := Step(s, h1, st, ms[0]);
      var t2 := Step(s, h2, st, ms[0]);
      assert t1.next == t2.next;
      if ms[0].Command? && ms[0].name == s.name && st.status == Running && (s.perm == "" || st.slot == Some(true)) {
        var c := C(ms[0].player, ms[0].args);
        var pre: seq<Event> := if s.perm == "" then [] else [Sent(CheckPermission(s, ms[0].player))];
        assert t1.trace == pre + Invoke(h1, c) && t2.trace == pre + Invoke(h2, c);
        InvokeViews(h1, c);
        InvokeViews(h2, c);
        SendsAppend(pre, Invoke(h1, c));
        SendsAppend(pre, Invoke(h2, c));
        InvocationsAppend(pre, Invoke(h1, c));
        InvocationsAppend(pre, Invoke(h2, c));
      } else {
        assert t1.trace == t2.trace;
      }
      HandlerResultDoesNotSteer(s, h1, h2, t1.next, ms[1..]);
      var u1 := Run(s, h1, t1.next, ms[1..]);
      var u2 := Run(s, h2, t2.next, ms[1..]);
      SendsAppend(t1.trace, u1.trace);
      SendsAppend(t2.trace, u2.trace);
      InvocationsAppend(t1.trace, u1.trace);
      InvocationsAppend(t2.trace, u2.trace);
    }
  }
}
