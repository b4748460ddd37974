# Mailbox and actor-system name check of the Go actor runtime, in Dafny

This project models two pieces of an actor-model runtime written in Go.

**The mailbox** (`dispatch/mailbox.go`). Each actor has a mailbox. The mailbox
holds a user message queue and one int32 status word. The word packs three
facts:

- bit 0 is Closed;
- bit 1 is Scheduled;
- the bits from 2 up count nested suspends, in units of 4.

`suspend`, `resume`, `becomeClosed` and `setAsIdle` rewrite the word. In Go
each one is a compare-and-swap retry. Run sequentially, every compare-and-swap
succeeds at once, so each transition is one deterministic update. The module
`MailboxStatus` gives each transition as a function from the old word to the
new word and the boolean the operation returns. It proves what each transition
does to the three facts. It also proves nesting, idempotence and that Closed
absorbs every transition.

The mask predicates are written with the masks the source uses. For a
non-negative word, `s & ^m` equals Go's `s &^ m`, which is modelled by
`Bits.AndNot`. `isClosed` is an equality test, not a mask.

The class `Dispatch.Mailbox` holds the word and the queue. Its methods mirror
the Go methods. The four transition methods are each proved to equal their
function in `MailboxStatus`. `Run` ends at the status that `SetAsIdle` gives.
`ProcessMailbox` and `Run` are proved to deliver a closed-form prefix of the
queue. Its invariant `Valid()` is `Reachable`: the Closed bit appears
only in the word Closed (1) itself. On such words the equality test `isClosed`
agrees with the Closed bit.

`Run` works as follows. Unless the mailbox is Closed, it calls
`processMailbox(max(1, Throughput()))`. That loop dequeues and invokes user
envelopes one at a time. It stops when the queue is empty, when the mailbox may
no longer process messages, or when the budget is spent. A deferred block then
clears Scheduled and calls `RegisterForExecution(p, false, false)`. The invoker
(the actor cell) and the dispatcher are abstract collaborators. The invoker
records the envelopes it is handed in a ghost sequence `delivered`. The
dispatcher has a `throughput` and records every registration request.

**The actor-system name check** (`actor/actor_system_impl.go`). `NewActorSystem`
accepts a name only when it matches `^[a-zA-Z0-9][a-zA-Z0-9-_]*$`. This is a
Go (RE2, Perl-flag) regular expression, and the `-` after `0-9` is a literal
hyphen. Go's `$` without the multi-line flag matches only at the end of the
text, so a trailing newline is rejected. The module `ActorSystem` models the
pattern as a character-class matcher. It proves that the matcher accepts
exactly the names whose first character is an ASCII letter or digit and whose
other characters are ASCII letters, digits, `-` or `_`.

`NewActorSystem` then builds the system field by field. What its collaborators
return is passed in as parameters: building the settings, creating the
provider, and the provider's `Init` during `Start`. As written, the source does
not check the error from `configureProvider` (line 72). So when no provider
was stored, `Start` calls `Init` through a nil provider (line 254), and the
model ends in `NilProviderPanic` there.

Three things an actor mailbox usually does are missing from this code, and the model follows the code:

- `processAllSystemMessages` is an empty stub, so no system queue is drained.
- `Enqueue` only delegates to the queue, so a Closed mailbox does not redirect
  to dead letters.
- `shouldProcessMessage` is the mask test `s & ^2 == 0`. It holds only for
  words 0 and 2. On reachable words this is "neither closed nor suspended".

## Model

| member | source | states |
|---|---|---|
| `MailboxStatus.FieldsDetermineStatus` | dispatch/mailbox.go:9-18 | two words with the same Closed bit, Scheduled bit and suspend count are equal |
| `MailboxStatus.ShouldProcessMessage` | dispatch/mailbox.go:131-133 | the mask test `s & ^2 == 0`, written as `s &^ 2 == 0`; `ShouldProcessMessageIff` proves it holds for words 0 and 2 only |
| `MailboxStatus.IsSuspended` | dispatch/mailbox.go:135-137 | the mask test `s & ^3 != 0`, written as `s &^ 3 != 0`; `IsSuspendedIff` proves it holds exactly when the suspend count is above 0 |
| `MailboxStatus.IsClosed` | dispatch/mailbox.go:139-141 | the equality test `s == Closed`; `ShouldProcessMeansOpenAndNotSuspended` proves it agrees with the Closed bit on reachable words |
| `MailboxStatus.IsScheduled` | dispatch/mailbox.go:143-145 | the mask test `s & 2 != 0`; `IsScheduledIff` proves it holds exactly when bit 1 is set |
| `MailboxStatus.ShouldProcessMessageIff` | dispatch/mailbox.go:131-133 | the mask test holds exactly when the Closed bit is clear and the suspend count is 0, that is for words 0 and 2 only |
| `MailboxStatus.IsSuspendedIff` | dispatch/mailbox.go:135-137 | suspended exactly when the suspend count is above 0, that is when the word is at least 4 |
| `MailboxStatus.IsScheduledIff` | dispatch/mailbox.go:143-145 | the mask test holds exactly when bit 1 is set |
| `MailboxStatus.ShouldProcessMeansOpenAndNotSuspended` | dispatch/mailbox.go:131-141 | on a reachable word, `isClosed` equals the Closed bit, and processing is allowed exactly when the word is neither closed nor suspended |
| `MailboxStatus.Suspend` | dispatch/mailbox.go:166-178 | Closed stays Closed and returns false; any other word gains exactly one suspend unit with bits 0-1 unchanged, and the result is true exactly when the count was 0 before |
| `MailboxStatus.Resume` | dispatch/mailbox.go:147-164 | Closed stays Closed and returns false; any other word loses one suspend unit but never goes below 0, keeps bits 0-1, and returns true exactly when the count is now 0 |
| `MailboxStatus.BecomeClosed` | dispatch/mailbox.go:180-188 | the new word is exactly Closed, with no Scheduled bit and no suspend count; the result is true exactly when the word was not Closed |
| `MailboxStatus.SetAsIdle` | dispatch/mailbox.go:190-197 | clears the Scheduled bit, keeps the Closed bit and the suspend count, and always returns true |
| `MailboxStatus.ClearedScheduledFields` | dispatch/mailbox.go:193 | `s &^ Scheduled` is a word no larger than `s`, without bit 1, with the Closed bit and suspend count of `s` |
| `MailboxStatus.Max` | dispatch/mailbox.go:199-204 | the result is one of the two arguments and is at least both |
| `MailboxStatus.ClosedIsAbsorbing` | dispatch/mailbox.go:147-197 | on Closed, suspend, resume and becomeClosed return false and all four transitions leave the word Closed |
| `MailboxStatus.BecomeClosedIdempotent` | dispatch/mailbox.go:180-188 | from a word that is not Closed, the first close returns true and a second close returns false with the word still Closed |
| `MailboxStatus.SetAsIdleIdempotent` | dispatch/mailbox.go:190-197 | applying setAsIdle twice gives the same word and result as applying it once |
| `MailboxStatus.SetAsIdleOnIdle` | dispatch/mailbox.go:190-197 | on a word without the Scheduled bit, setAsIdle changes nothing |
| `MailboxStatus.ResumeUndoesSuspend` | dispatch/mailbox.go:147-178 | on a word that is not Closed, resume after suspend restores the word exactly, and resume's result equals suspend's result |
| `MailboxStatus.ResumeAtLevelZero` | dispatch/mailbox.go:147-164 | on an unsuspended word that is not Closed, resume leaves the word unchanged and returns true |
| `MailboxStatus.OpenIsReachable` | dispatch/mailbox.go:35-40 | the initial word Open is reachable, not suspended and not scheduled, and may process messages |
| `MailboxStatus.TransitionsPreserveReachable` | dispatch/mailbox.go:147-197 | each of the four transitions maps a reachable word to a reachable word |
| `MailboxStatus.SuspendTimes` | dispatch/mailbox.go:166-178 | k suspends of an open word add exactly k to the suspend count and leave bits 0-1 alone |
| `MailboxStatus.ResumeTimes` | dispatch/mailbox.go:147-164 | k resumes of an open word subtract k from the suspend count, stopping at 0, and leave bits 0-1 alone |
| `MailboxStatus.SuspendNesting` | dispatch/mailbox.go:135-178 | from count 0, after k suspends and k-1 resumes the mailbox is suspended; the k-th resume returns true and unsuspends it; any further resumes give back the starting word |
| `Dispatch.Mailbox.constructor` | dispatch/mailbox.go:35-40 | a new mailbox has status Open over the given queue and satisfies its invariant |
| `Dispatch.Mailbox.Enqueue` | dispatch/mailbox.go:54-56 | the envelope is appended to the back of the queue |
| `Dispatch.Mailbox.Dequeue` | dispatch/mailbox.go:58-60 | an empty queue yields None and stays empty; otherwise the front envelope is returned and removed |
| `Dispatch.Mailbox.NumberOfMessages` | dispatch/mailbox.go:62-64 | the result is the queue length |
| `Dispatch.Mailbox.HasMessages` | dispatch/mailbox.go:66-68 | the result is true exactly when the queue is not empty |
| `Dispatch.Mailbox.Suspend` | dispatch/mailbox.go:166-178 | the new status and the result are those of `MailboxStatus.Suspend` on the old status; the invariant is kept |
| `Dispatch.Mailbox.Resume` | dispatch/mailbox.go:147-164 | the new status and the result are those of `MailboxStatus.Resume` on the old status; the invariant is kept |
| `Dispatch.Mailbox.BecomeClosed` | dispatch/mailbox.go:180-188 | the new status and the result are those of `MailboxStatus.BecomeClosed` on the old status; the invariant is kept |
| `Dispatch.Mailbox.SetAsIdle` | dispatch/mailbox.go:190-197 | the new status is that of `MailboxStatus.SetAsIdle` on the old status, the result is true, and the invariant is kept |
| `Dispatch.Mailbox.ProcessAllSystemMessages` | dispatch/mailbox.go:92-95 | the empty stub: it has no modifies clause, so it changes nothing |
| `Dispatch.Mailbox.ProcessMailbox` | dispatch/mailbox.go:97-117 | the status is unchanged; if the mailbox may process messages, the invoker receives exactly the first min(queue length, max(1, left)) envelopes in dequeue order and they leave the queue; otherwise nothing is invoked or dequeued |
| `Dispatch.Mailbox.Run` | dispatch/mailbox.go:79-90 | a Closed or suspended mailbox invokes and dequeues nothing; one that is neither closed nor suspended invokes exactly the first min(queue length, max(1, throughput)) envelopes in order (the invariant makes this the same as the mask test); on every path the Scheduled bit ends cleared and exactly one `RegisterForExecution(p, false, false)` is recorded |
| `ActorSystem.MatchesNamePattern` | actor/actor_system_impl.go:42 | the pattern `^[a-zA-Z0-9][a-zA-Z0-9-_]*$` as a character-class matcher anchored at both ends; `NamePatternIff` proves what it accepts |
| `ActorSystem.NameTailIff` | actor/actor_system_impl.go:42 | `[a-zA-Z0-9-_]*$` matches a string exactly when every character is an ASCII letter, digit, `-` or `_` |
| `ActorSystem.NamePatternIff` | actor/actor_system_impl.go:42 | the pattern accepts a name exactly when it is non-empty, starts with an ASCII letter or digit, and every later character is an ASCII letter, digit, `-` or `_` |
| `ActorSystem.RejectsBadStart` | actor/actor_system_impl.go:42-45 | the empty name and names starting with `-` or `_` are rejected |
| `ActorSystem.RejectsForeignChar` | actor/actor_system_impl.go:42-45 | a name with any character outside the name class at any position is rejected |
| `ActorSystem.AppendNameChar` | actor/actor_system_impl.go:42 | appending a name character to an accepted name gives an accepted name |
| `ActorSystem.PrefixOfAcceptedName` | actor/actor_system_impl.go:42 | every non-empty prefix of an accepted name is accepted |
| `ActorSystem.AcceptedNameExamples` | actor/actor_system_impl.go:42 | `sys-1_A` and `9` are accepted |
| `ActorSystem.RejectedNameExamples` | actor/actor_system_impl.go:42-45 | `_sys`, `my system`, `sys.tem` and a name ending in a newline are rejected |
| `ActorSystem.Equals` | actor/actor_system_impl.go:140-148 | false for any argument that is not an ActorPath; for an ActorPath, true exactly when CompareTo yields 0 |
| `ActorSystem.EqualsSymmetric` | actor/actor_system_impl.go:140-148 | when CompareTo is antisymmetric on two paths, Equals gives the same answer in both directions |
| `ActorSystem.ActorSystemImpl.constructor` | actor/actor_system_impl.go:49-54 | the new system stores the given name, and nothing is configured yet |
| `ActorSystem.ActorSystemImpl.Name` | actor/actor_system_impl.go:112-114 | returns the stored name; `NewActorSystem`'s ensures fixes that name to the argument |
| `ActorSystem.ActorSystemImpl.ConfigureSettings` | actor/actor_system_impl.go:182-191 | on a settings error, returns it and leaves the settings unset; otherwise stores the settings and returns no error |
| `ActorSystem.ActorSystemImpl.ConfigureEventStream` | actor/actor_system_impl.go:193-197 | starts the event stream and returns no error |
| `ActorSystem.ActorSystemImpl.ConfigureProvider` | actor/actor_system_impl.go:228-242 | a creation error is returned as is; an instance that is not a provider gives ErrCreateActorRefProviderFailure; in both cases no provider is stored; otherwise the provider is stored and no error is returned |
| `ActorSystem.ActorSystemImpl.ConfigureMailboxes` | actor/actor_system_impl.go:244-247 | the mailboxes are configured |
| `ActorSystem.ActorSystemImpl.ConfigureDispatchers` | actor/actor_system_impl.go:249-251 | the dispatchers are configured |
| `ActorSystem.NewActorSystem` | actor/actor_system_impl.go:41-82 | a name the pattern rejects gives a nil system and ErrInvalidActorSystemName, and only such a name does; a settings error gives a nil system and that error; with no stored provider, Start panics on a nil provider; otherwise a fresh system whose `Name()` is exactly the argument, with everything configured, is returned with the error of the provider's Init |

## Left out

- Concurrency in the mailbox is not modelled. Atomic loads, stores and compare-and-swaps, and the retry recursion and loops in `resume`, `suspend`, `becomeClosed` and `setAsIdle`, are collapsed into single sequential updates. Cross-thread mutual exclusion of `Run` is not verified.
- MailboxStatus.Suspend: requires that adding 4 stays within int32. Go adds with no overflow check and would wrap to a negative word. The status type therefore covers only the non-negative int32 words the transitions produce.
- Dispatch.Mailbox.ProcessMailbox: the invoker only records envelopes. An invoker that suspends or closes the mailbox from inside `Invoke` is not modelled, so the status stays constant through a batch.
- Dispatch.Mailbox.Run: a panic inside `Invoke` is not modelled. The deferred cleanup runs as the last two statements.
- System-message processing is an empty stub in the source. It is a no-op here, and the lock-free system queue (`pkg/lfqueue`) is not part of this model.
- The user MessageQueue implementation is not part of this model. It is an unbounded FIFO held as a sequence, so `Enqueue` never fails, and its receiver argument is unused.
- `CleanUp` only delegates to the queue's own cleanup, which is not part of this model.
- `SetActor` and `Dispatcher()` are wiring through the actor cell (dispatch/mailbox.go:42-48), which is not part of this model. The invoker and the dispatcher are given at construction. The source never assigns `invoker` in this file.
- `MessageQueue()` returns the queue field itself (dispatch/mailbox.go:50-52). It has no counterpart, because the model holds the queue's contents as the field `messageQueue`.
- `RegisterForExecution` and `Throughput` belong to the dispatcher, which is not part of this model. A registration is only recorded; setting the Scheduled bit and submitting `Run` to a worker are not modelled.
- `Dispatch.Mailbox.Valid` assumes the dispatcher never sets the Scheduled bit on the word Closed, so word 3 (Closed and Scheduled) never occurs. The dispatcher code that sets the bit is not part of this model. The unused `MailboxStatusShouldScheduleMask` (3, dispatch/mailbox.go:13) suggests it schedules only words whose bits 0 and 1 are clear. `Run`'s clauses about closed or suspended mailboxes rely on this assumption.
- The unused constants `MailboxStatusSuspendAwaitTask` and `MailboxStatusShouldScheduleMask` are left out.
- Names are sequences of characters. Go matches the pattern over the UTF-8 runes of the string, and no non-ASCII rune belongs to either class, so the verdict is the same.
- In `NewActorSystem`, the clock (`startedTime`), the class loader, dynamic access, the scheduler, loggers and termination callbacks are left out. The settings builder, provider creation and `Init` are parameters, and `config` is only forwarded to the settings builder.
- `path` is never assigned in this file. `Equals` takes the system's path and `CompareTo` as parameters.
- `StartTime` and `Uptime` (wall clock, floating-point seconds), the empty stub methods, and the delegations to the guardians (`Guardian`, `SystemGuardian`, `ActorOf`, `SystemActorOf`) are left out.
- actor/reflect_producer.go (reflective construction), event/logging_bus.go (event-bus plumbing), cell.go and interanl_actor_ref.go (interfaces only) are not part of this model.
