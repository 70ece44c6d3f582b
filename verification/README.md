# Goript script bridge: the dispatch loop

This project models, in Dafny, the core of the Goript script API (`api.go`).
A Goript script is a worker process that serves one command for a game-server
host. It talks to the host over standard input and output, one JSON object
per line:

- `RegisterCommand` announces the script's one command name to the host.
- `MainLoop` reads inbound lines and routes each one.
- A `command` line whose name is the script's name runs the script's
  handler. When the script has a permission, `HasPermission` first writes a
  `check_permission` request and takes its answer from a one-slot buffer.
  A denial is reported to the player with `SendMessage`.
- A `permission_result` line fills that one-slot buffer.

Everything runs on one goroutine. The handler is called synchronously, and
the buffer is read by `HasPermission` but filled only by `MainLoop` itself.
So one loop step is a pure function of the loop state and one classified
inbound line. That step is `Dispatch.Step`. `Dispatch.Run` folds it over a
stream and returns the final state and the trace of events. An event is a
line sent to the host, a handler call, or an error handed to the logger.

A channel operation that can never complete becomes the terminal state
`Stuck`. There are two such operations: receiving from the empty slot
(`AwaitingPermission`) and sending to the full slot (`SlotOccupied`). The Go
process then either hangs or dies with the runtime's deadlock error. Either
way, no further line is read or written.

Modules:

- `Wrappers`: `Option`.
- `Json`: the JSON values written. Objects are maps, because key order carries
  no meaning for the reader.
- `Api`: the `Script` configuration, the handler context `C`, classified
  inbound lines, and the three envelopes the script writes. Each envelope has
  a reader beside it: the view a host takes of one output line. The shape
  lemmas prove the reader recovers the fields **if and only if** the line is
  that envelope.
- `Dispatch`: the loop step, the run, and the routing and trace properties.
- `Resuming`: the corrected loop described under Findings.

Facts about the code that the model keeps:

- there is no timeout on the permission wait;
- the answer buffer holds one value, and an extra answer blocks the loop;
  it is not dropped;
- no key correlates an answer with its request: the buffered value decides
  the next gated command, whichever player it was for;
- a handler error is only logged and is not reported to the player;
- `action` and `player` sit inside `data` in the `player_action` envelope;
- a script serves exactly one command name.

The denial text is modelled character for character as the code spells it: `Â§cNo
permission.`. That is a doubly encoded section sign in front of the colour
code `c`.

## Model

| member | source | states |
|---|---|---|
| Api.Route | api.go:83-106 | a decoded line is a command exactly when its type is `command`, a permission result exactly when it is `permission_result`, and any other type is carried as Other with that type; a command carries the decoded name, player and args, a permission result the decoded has_permission |
| Api.RegisterCommand | api.go:46-54 | the registration line announces exactly the script's name, and a host reads it neither as a permission check nor as a chat line |
| Api.AnnouncementShape | api.go:49-52 | a line announces the script's name if and only if it is exactly `{type: register_command, data: {command: Name}}` |
| Api.HasPermission | api.go:56-63 | the request carries (player, Perm, OpBypass); the answer is the buffered value, and there is no answer (the receive blocks) exactly when the slot is empty |
| Api.QueryShape | api.go:57-60 | a line asks about (player, Perm, OpBypass) if and only if it is exactly the `check_permission` envelope with data `{player, permission, op_bypass}` |
| Api.StyledShape | api.go:71 | removing the colour head, the prefix and the separator recovers the text if and only if the message is exactly head + Prefix + separator + text |
| Api.StyledInjective | api.go:71 | two chat lines from one script are equal if and only if their texts are equal |
| Api.ChatShape | api.go:65-75 | a line is a `send_message` action for player `to` carrying the styled text if and only if it is SendMessage's envelope, with `action` and `player` inside `data` |
| Api.EnvelopeKindsDisjoint | api.go:49-72 | no line is read as two kinds of envelope |
| Dispatch.FoldAppend | api.go:78-108 | folding the step over two consecutive pieces of a stream is folding it over the whole: only the loop state carries over between lines |
| Dispatch.RunAppend | api.go:78-108 | running the loop on a + b is running it on a, then on b from the state a left |
| Dispatch.StuckIsTerminal | api.go:62-106 | once blocked on the slot, the loop writes and calls nothing more; a loop still running at the end was running throughout |
| Dispatch.InertLineSkipped | api.go:79-93 | a malformed line, a foreign message type or another command's name, placed anywhere in a stream, changes nothing in the run |
| Dispatch.MalformedLineSkipped | api.go:79-82 | a line that fails to decode produces no output, no handler call and no slot change, and the next line is read as if it had not been there |
| Dispatch.OtherTypeIgnored | api.go:83-107 | a message of any type other than `command` and `permission_result` has no effect on output, handler calls or the slot |
| Dispatch.UnhandledTypeIgnored | api.go:83-107 | a line whose decoded type is neither `command` nor `permission_result` is routed to Other, has no effect on output, handler calls or the slot, and leaves the whole run unchanged wherever it sits |
| Dispatch.ForeignCommandIgnored | api.go:91-93 | a command whose name is not the script's name emits nothing, calls nothing and leaves the slot alone |
| Dispatch.UngatedCommandRunsHandler | api.go:94-98 | with no permission set, a matching command calls the handler exactly once with its player and arguments, writes nothing and leaves the slot alone |
| Dispatch.GatedCommandAsksOnce | api.go:56-97 | with a permission set, a matching command writes exactly one `check_permission` first, for (player, Perm, OpBypass), and leaves the slot empty; the loop is stuck if and only if the slot was empty, and then nothing else happens |
| Dispatch.DeniedCommandTellsPlayer | api.go:94-97 | a false answer yields the check and then exactly one `send_message` to that player with the styled denial text; the handler is not called |
| Dispatch.GrantedCommandRunsHandler | api.go:94-98 | a true answer yields the check and then exactly one handler call with the command's player and arguments |
| Dispatch.HandlerErrorOnlyLogged | api.go:94-100 | whenever the handler is called (no permission set, or a true answer) and fails, the loop stays running, the error is the last event of its step, and no line is written for it: the only line of its step is the check line, when a permission is set |
| Dispatch.PermResultFillsSlot | api.go:101-106 | a `permission_result` writes nothing; it fills an empty slot with `has_permission`, and if and only if the slot was already full the loop is stuck |
| Dispatch.UndecodedCommandReachesNewScript | api.go:85-93 | a command line whose `command`, `player` and `args` fields did not decode leaves their zero values, and these match a script with every field at its zero value, as New leaves it (so no permission): its handler runs for an empty player with no arguments |
| Dispatch.UngatedInvokesEachMatchingCommand | api.go:78-106 | with no permission set, nothing is ever written; over any run that does not block, `permission_result` lines included, the handler calls are exactly the matching command lines' (player, args), in order; with no `permission_result` in the stream the loop state is unchanged |
| Dispatch.GatedInvocationsFollowChecks | api.go:94-98 | with a permission set, every handler call in any run comes directly after the `check_permission` line for the same player |
| Dispatch.EveryAnswerConsumedOnce | api.go:56-106 | over a run that does not block, answers received plus the one buffered at the start equal checks written plus the one buffered at the end |
| Dispatch.GatedCommandNeedsPrefilledSlot | api.go:56-63 | from an empty slot, a gated command writes its check and the loop stops there, whatever follows; even the host's `permission_result(true)` on the next line never leads to a handler call |
| Dispatch.HandlerResultDoesNotSteer | api.go:98-100 | what the handler returns never affects the loop's states, the lines written or the handler calls |
| Resuming.FirstResult | api.go:101-106 | finds the first `permission_result` of a stream, and there is none before it; None means there is none at all |
| Resuming.ReplyDecidesCommand | api.go:94-106 | in the corrected loop, the first `permission_result` after a gated command decides it (denial line or handler call); the lines in between are then dispatched in order, and none is lost |
| Resuming.StuckStaysStuck | api.go:62-106 | in the corrected loop too, a loop that is already stuck writes and calls nothing more, so no later line is taken as the answer to an earlier wait |
| Resuming.AgreesUnlessWaiting | api.go:77-109 | wherever the loop as written does not wait forever for an answer, the corrected loop does exactly the same thing |

## Left out

- JSON encoding and decoding. Inbound lines arrive already classified as
  `Malformed`, `Command`, `PermResult` or `Other`. Decoding `data` keeps the
  fields that decoded and leaves zero values for the rest; the model takes
  those field values as given. Outbound lines are JSON value trees, not text.
- Standard input and output buffering, flushing, and the `bufio.Scanner`
  line-length limit, which ends the loop early on an overlong line. These are
  I/O.
- The mutex taken by RegisterCommand. It only guards concurrent writers, and
  the model is sequential.
- The text of the log line written by `log.Println`, including its timestamp.
  The model records only that the handler's error value is logged.
- Handler bodies. A handler is an uninterpreted function returning success or
  an error. Lines a handler writes itself and permission checks made from
  inside a handler are not modelled.
- `HelpLines`. The modelled code never reads it.
- Dispatch.UndecodedCommandReachesNewScript: handlers are total functions, so
  the model does not cover a nil `Handler`. A script fresh from New has one,
  and calling it at api.go:98 panics and ends the loop. The lemma holds only
  for a script whose handler has been set.
- Go's goroutine scheduling and its runtime deadlock detection. A channel
  operation that cannot complete is the terminal state `Stuck`.

## Findings

| source | as written | input that shows it | evidently intended | confidence | as-written member | corrected member |
|---|---|---|---|---|---|---|
| api.go:56-63 | HasPermission writes the check and then receives from `permChan`. The only sender is the loop itself (api.go:106), and the loop is the one waiting. So the host's reply to the check is never read, and a gated command runs only if an answer was already buffered before the command arrived. | Script with Name `heal` and Perm `cmd.heal`; input lines: a `command` for `heal` from Alice, then `permission_result` with `has_permission` true | the host's answer to a check decides that command: the handler runs on true, the denial line is sent on false | not executed; high, since no other goroutine sends on `permChan` | Dispatch.GatedCommandNeedsPrefilledSlot | Resuming.ReplyDecidesCommand |

The corrected loop `Resuming.Run` changes only this case. When a gated
command finds the slot empty, the first `permission_result` that follows
answers it. Lines that arrive in between are held back and dispatched after
the answer, in arrival order. `Resuming.AgreesUnlessWaiting` shows that the
two loops are identical whenever the loop as written does not block waiting
for an answer. So every `Dispatch` property about such runs also holds for the
corrected loop. The `Dispatch` lemmas describe the code as written.
